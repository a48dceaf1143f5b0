/**
 * The device URI of a printer (`format_uri`, `parse_address` of `device.c`, `phomemo_uri_model` of
 * `models.c`). A C string is its characters without the closing NUL; a buffer is an array that
 * holds one.
 */
module DeviceUri {
  import opened Bytes

  const PREFIX := "phomemo://"
  const QUERY := "?model="

  /** `strcspn`: how many characters stand before the first of `stops`. */
  function Span(s: string, stops: string): (n: nat)
    ensures n <= |s|
    ensures forall i :: 0 <= i < n ==> s[i] !in stops
    ensures n < |s| ==> s[n] in stops
  {
    if s == [] || s[0] in stops then 0 else 1 + Span(s[1..], stops)
  }

  lemma SpanIs(s: string, stops: string, n: nat)
    requires n <= |s| && (forall i :: 0 <= i < n ==> s[i] !in stops) && (n < |s| ==> s[n] in stops)
    ensures Span(s, stops) == n
  {
  }

  /** The string a buffer holds. */
  function Text(buffer: seq<char>): string { buffer[..Span(buffer, "\0")] }

  predicate IsText(s: string) { '\0' !in s }

  function Replaced(s: string, from: char, to: char): (r: string)
    ensures |r| == |s|
    ensures forall i :: 0 <= i < |s| ==> r[i] == if s[i] == from then to else s[i]
  {
    seq(|s|, i requires 0 <= i < |s| => if s[i] == from then to else s[i])
  }

  /** What `snprintf` keeps of a string in a buffer of that size. */
  function Fitting(s: string, size: nat): string
    requires size >= 1
  {
    s[..Min(|s|, size - 1)]
  }

  function Uri(address: string, model: string): string { PREFIX + Replaced(address, ':', '-') + QUERY + model }

  // ------------------------------------------------------------------
  // The two readers
  // ------------------------------------------------------------------

  /** The address in a URI, for a buffer of that size. */
  function AddressIn(uri: string, size: nat): Option<string> {
    if !(PREFIX <= uri) then None
    else
      var host := uri[|PREFIX|..];
      var n := Span(host, "/?#");
      if n == 0 || n >= size then None else Some(Replaced(host[..n], '-', ':'))
  }

  predicate NamesModel(uri: string, p: nat)
    requires p < |uri|
  {
    "model=" <= uri[p + 1..]
  }

  /** Where the value of the last `model` member starts, looking from the separator at p on. */
  function LastValue(uri: string, p: nat, found: Option<nat>): (value: Option<nat>)
    requires p < |uri| && (found.Some? ==> found.value <= |uri|)
    ensures value.Some? ==> value.value <= |uri|
    decreases |uri| - p
  {
    var here := if NamesModel(uri, p) then Some(p + 7) else found;
    if NextMember(uri, p) < |uri| then LastValue(uri, NextMember(uri, p), here) else here
  }

  /** The next separator, or the end. */
  function NextMember(uri: string, p: nat): (n: nat)
    requires p < |uri|
    ensures p < n <= |uri|
  {
    p + 1 + Span(uri[p + 1..], "&")
  }

  lemma ValueStep(uri: string, p: nat, found: Option<nat>)
    requires p < |uri| && (found.Some? ==> found.value <= |uri|)
    ensures var here := if NamesModel(uri, p) then Some(p + 7) else found;
            LastValue(uri, p, found)
            == if NextMember(uri, p) < |uri| then LastValue(uri, NextMember(uri, p), here) else here
  {
  }

  /** The model a URI names, for a buffer of that size. */
  function ModelIn(uri: string, size: nat): Option<string> {
    var query := Span(uri, "?");
    if query == |uri| then None
    else
      var value := LastValue(uri, query, None);
      if value.None? || value.value == |uri| then None
      else
        var rest := uri[value.value..];
        var n := Span(rest, "&#");
        if n >= size then None else Some(rest[..n])
  }

  // ------------------------------------------------------------------
  // Round trips
  // ------------------------------------------------------------------

  predicate Free(s: string, chars: string) { forall c <- s :: c !in chars }

  /** Two replacements undo each other exactly on strings without the character put in. */
  lemma ReplacedBackIff(s: string)
    ensures Replaced(Replaced(s, ':', '-'), '-', ':') == s <==> '-' !in s
  {
    var r := Replaced(Replaced(s, ':', '-'), '-', ':');
    if '-' in s {
      var i :| 0 <= i < |s| && s[i] == '-';
      assert r[i] == ':';
    }
  }

  /** An address comes back exactly if it is not empty, fits, and holds neither delimiters nor dashes. */
  predicate AddressFits(address: string, size: nat) {
    address != "" && |address| < size && Free(address, "/?#-")
  }

  lemma HostReadsBackIff(uri: string, address: string, tail: string, size: nat)
    requires uri == PREFIX + Replaced(address, ':', '-') + tail && (tail == "" || tail[0] == '?')
    ensures AddressIn(uri, size) == Some(address) <==> AddressFits(address, size)
  {
    hide Span;
    var dashed := Replaced(address, ':', '-');
    var host := dashed + tail;
    assert uri == PREFIX + host;
    AddressInHost(host, size);
    HostEnds(address, tail);
    hide AddressIn;
    if Free(address, "/?#") {
      assert host[..|address|] == dashed;
      ReplacedBackIff(address);
      FreeOfMore(address);
    }
    hide Replaced, Free;
  }

  lemma AddressInHost(host: string, size: nat)
    ensures AddressIn(PREFIX + host, size)
         == var n := Span(host, "/?#");
            if n == 0 || n >= size then None else Some(Replaced(host[..n], '-', ':'))
  {
    assert (PREFIX + host)[|PREFIX|..] == host;
  }

  /** The host ends where the address does exactly if no delimiter cuts it short. */
  lemma HostEnds(address: string, tail: string)
    requires tail == "" || tail[0] == '?'
    ensures var n := Span(Replaced(address, ':', '-') + tail, "/?#");
            if Free(address, "/?#") then n == |address| else n < |address|
  {
    var dashed := Replaced(address, ':', '-');
    var host := dashed + tail;
    if Free(address, "/?#") {
      assert forall i :: 0 <= i < |address| ==> host[i] == dashed[i] && address[i] in address;
      SpanIs(host, "/?#", |address|);
    } else {
      var c :| c in address && c in "/?#";
      var k :| 0 <= k < |address| && address[k] == c;
      assert host[k] == dashed[k] == c;
    }
  }

  lemma FreeOfMore(address: string)
    ensures Free(address, "/?#-") <==> Free(address, "/?#") && '-' !in address
  {
    assert forall c: char :: c in "/?#-" <==> c in "/?#" || c == '-';
  }

  /** What such a URI looks like. */
  lemma UriExample()
    ensures Uri("DC:0D:51", "M08F") == "phomemo://DC-0D-51?model=M08F"
  {
    assert Replaced("DC:0D:51", ':', '-') == "DC-0D-51";
  }

  lemma AddressRoundTripIff(address: string, model: string, size: nat)
    ensures AddressIn(Uri(address, model), size) == Some(address) <==> AddressFits(address, size)
  {
    assert Uri(address, model) == PREFIX + Replaced(address, ':', '-') + (QUERY + model);
    HostReadsBackIff(Uri(address, model), address, QUERY + model, size);
  }

  /** From a URI cut to a buffer the address comes back exactly if, besides, the cut spares it. */
  lemma CutAddressReadsBackIff(address: string, model: string, uriSize: nat, size: nat)
    requires uriSize > |PREFIX|
    ensures AddressIn(Fitting(Uri(address, model), uriSize), size) == Some(address)
       <==> AddressFits(address, size) && |PREFIX| + |address| < uriSize
  {
    var dashed := Replaced(address, ':', '-');
    var head := PREFIX + dashed;
    var cut := Fitting(Uri(address, model), uriSize);
    assert Uri(address, model) == head + (QUERY + model);
    if |head| < uriSize {
      var tail := (QUERY + model)[..Min(|QUERY + model|, uriSize - 1 - |head|)];
      assert cut == head + tail;
      HostReadsBackIff(cut, address, tail, size);
    } else {
      assert |cut[|PREFIX|..]| < |address|;
    }
  }

  lemma QueryOf(address: string, model: string)
    requires '?' !in address
    ensures Span(Uri(address, model), "?") == |PREFIX| + |address|
    ensures Uri(address, model)[|PREFIX| + |address|..] == QUERY + model
  {
    var uri := Uri(address, model);
    var before := PREFIX + Replaced(address, ':', '-');
    assert uri == before + (QUERY + model);
    assert forall i :: 0 <= i < |before| ==> uri[i] == before[i];
    assert forall i :: |PREFIX| <= i < |before| ==> before[i] == '-' || before[i] in address by {
      forall i | |PREFIX| <= i < |before|
        ensures before[i] == '-' || before[i] in address
      {
        assert before[i] == Replaced(address, ':', '-')[i - |PREFIX|];
        assert address[i - |PREFIX|] in address;
      }
    }
    assert uri[|before|] == QUERY[0];
    SpanIs(uri, "?", |before|);
  }

  /** A model comes back exactly if it is not empty, fits, and holds no delimiter of its own. */
  lemma ModelRoundTripIff(address: string, model: string, size: nat)
    requires '?' !in address
    ensures ModelIn(Uri(address, model), size) == Some(model)
       <==> model != "" && |model| < size && Free(model, "&#")
  {
    hide Uri;
    QueryOf(address, model);
    var uri := Uri(address, model);
    if Free(model, "&#") {
      OneMember(uri, |PREFIX| + |address|, model);
      var p := |PREFIX| + |address|;
      assert uri[p..][7..] == uri[p + 7..] == model;
      assert forall i :: 0 <= i < |model| ==> model[i] in model;
      SpanIs(model, "&#", |model|);
      assert model[..|model|] == model;
    } else {
      CutIsFree(uri, size);
    }
  }

  /** From a URI cut to a buffer the model comes back exactly if, besides, nothing was cut. */
  lemma CutModelReadsBackIff(address: string, model: string, uriSize: nat, size: nat)
    requires uriSize > |PREFIX| && '?' !in address
    ensures ModelIn(Fitting(Uri(address, model), uriSize), size) == Some(model)
       <==> model != "" && |model| < size && Free(model, "&#") && |Uri(address, model)| < uriSize
  {
    var uri := Uri(address, model);
    var cut := Fitting(uri, uriSize);
    if |uri| < uriSize {
      assert cut == uri;
      ModelRoundTripIff(address, model, size);
    } else {
      QueryOf(address, model);
      ModelBehind(cut, size);
      var p := |PREFIX| + |address|;
      if Span(cut, "?") < |cut| {
        assert cut[Span(cut, "?")] == uri[Span(cut, "?")];
        assert Span(cut, "?") >= p;
      }
    }
  }

  /** A model read lies behind its query. */
  lemma ModelBehind(uri: string, size: nat)
    ensures ModelIn(uri, size).Some? ==> Span(uri, "?") + 7 + |ModelIn(uri, size).value| <= |uri|
  {
    if Span(uri, "?") < |uri| {
      ValueBehind(uri, Span(uri, "?"), None);
    }
  }

  lemma {:induction false} ValueBehind(uri: string, p: nat, found: Option<nat>)
    requires p < |uri| && (found.Some? ==> found.value <= |uri|)
    ensures var value := LastValue(uri, p, found);
            value.Some? ==> value.value >= p + 7 || value == found
    decreases |uri| - p
  {
    ValueStep(uri, p, found);
    if NextMember(uri, p) < |uri| {
      hide LastValue;
      ValueBehind(uri, NextMember(uri, p), if NamesModel(uri, p) then Some(p + 7) else found);
    }
  }

  /** A query of one member ends the search where it begins. */
  lemma OneMember(uri: string, p: nat, model: string)
    requires p < |uri| && uri[p..] == QUERY + model && Free(model, "&#")
    ensures LastValue(uri, p, None) == Some(p + 7)
  {
    var rest := uri[p + 1..];
    assert rest == (QUERY + model)[1..] == QUERY[1..] + model;
    forall i | 0 <= i < |rest|
      ensures rest[i] !in "&"
    {
      if i >= 6 {
        assert rest[i] == model[i - 6];
        assert model[i - 6] in model;
      } else {
        assert rest[i] == QUERY[i + 1];
      }
    }
    SpanIs(rest, "&", |rest|);
    assert "model=" <= rest;
  }

  /** Where several models are named, the last one counts: one appended to a query is the one read. */
  lemma LastModelCountsIff(uri: string, model: string, size: nat)
    requires '?' in uri
    ensures ModelIn(uri + "&model=" + model, size) == Some(model)
       <==> model != "" && |model| < size && Free(model, "&#")
  {
    hide LastValue, NextMember, NamesModel;
    var more := uri + "&model=" + model;
    var p := Span(uri, "?");
    assert forall i :: 0 <= i <= p ==> more[i] == uri[i];
    SpanIs(more, "?", p);
    if Free(model, "&#") {
      assert more[|uri|..] == "&model=" + model;
      LastMember(more, p, |uri|, model, None);
      assert more[|uri| + 7..] == model;
      assert forall i :: 0 <= i < |model| ==> model[i] in model;
      SpanIs(model, "&#", |model|);
      assert model[..|model|] == model;
    } else {
      CutIsFree(more, size);
    }
  }

  /** The search that starts anywhere before the last member ends there. */
  lemma {:induction false} LastMember(uri: string, p: nat, last: nat, model: string, found: Option<nat>)
    requires p <= last < |uri| && uri[last..] == "&model=" + model && Free(model, "&#")
    requires found.Some? ==> found.value <= |uri|
    ensures LastValue(uri, p, found) == Some(last + 7)
    decreases last - p
  {
    if p == last {
      EndsWithMember(uri, p, model, found);
    } else {
      ValueStep(uri, p, found);
      NextBefore(uri, p, last);
      hide LastValue, NextMember;
      LastMember(uri, NextMember(uri, p), last, model, if NamesModel(uri, p) then Some(p + 7) else found);
    }
  }

  lemma NextBefore(uri: string, p: nat, k: nat)
    requires p < k < |uri| && uri[k] == '&'
    ensures NextMember(uri, p) <= k
  {
    assert uri[p + 1..][k - p - 1] == '&';
  }

  lemma EndsWithMember(uri: string, p: nat, model: string, found: Option<nat>)
    requires p < |uri| && uri[p..] == "&model=" + model && Free(model, "&#")
    requires found.Some? ==> found.value <= |uri|
    ensures LastValue(uri, p, found) == Some(p + 7)
  {
    var rest := uri[p + 1..];
    assert rest == ("&model=" + model)[1..] == "model=" + model;
    forall i | 0 <= i < |rest|
      ensures rest[i] !in "&"
    {
      if i >= 6 {
        assert rest[i] == model[i - 6];
        assert model[i - 6] in model;
      }
    }
    SpanIs(rest, "&", |rest|);
    assert "model=" <= rest;
  }

  /** A model that is read holds none of the delimiters. */
  lemma CutIsFree(uri: string, size: nat)
    ensures ModelIn(uri, size).Some? ==> Free(ModelIn(uri, size).value, "&#") && |ModelIn(uri, size).value| < size
  {
  }

  // ------------------------------------------------------------------
  // In the buffers
  // ------------------------------------------------------------------

  /** `snprintf(buffer + at, size - at, "%s", text)`. */
  method Print(buffer: array<char>, at: nat, text: string)
    requires at < buffer.Length && IsText(text)
    modifies buffer
    ensures buffer[..at] == old(buffer[..at])
    ensures var kept := Fitting(text, buffer.Length - at);
            buffer[at..at + |kept|] == kept && buffer[at + |kept|] == '\0'
  {
    var n := Min(|text|, buffer.Length - at - 1);
    forall i | 0 <= i < n {
      buffer[at + i] := text[i];
    }
    assert forall i :: 0 <= i < n ==> buffer[at..at + n][i] == text[..n][i];
    buffer[at + n] := '\0';
    assert buffer[at..at + n] == text[..n];
  }

  lemma TextIs(buffer: seq<char>, s: string)
    requires IsText(s) && |s| < |buffer| && buffer[..|s|] == s && buffer[|s|] == '\0'
    ensures Text(buffer) == s
  {
    forall i | 0 <= i < |s|
      ensures buffer[i] !in "\0"
    {
      assert buffer[i] == s[i];
    }
    SpanIs(buffer, "\0", |s|);
  }

  /** The head in the buffer with its colons replaced, and the query printed after it, are the URI cut to size. */
  lemma Assembled(buffer: seq<char>, head: string, address: string, model: string)
    requires |buffer| > |PREFIX| && IsText(address) && IsText(model)
    requires head == PREFIX + Replaced(Fitting(PREFIX + address, |buffer|)[|PREFIX|..], ':', '-')
    requires |head| < |buffer| && buffer[..|head|] == head
    requires var kept := Fitting(QUERY + model, |buffer| - |head|);
             buffer[|head|..|head| + |kept|] == kept && buffer[|head| + |kept|] == '\0'
    ensures Text(buffer) == Fitting(Uri(address, model), |buffer|)
  {
    var kept := Fitting(QUERY + model, |buffer| - |head|);
    var dashed := Replaced(address, ':', '-');
    var taken := Fitting(PREFIX + address, |buffer|)[|PREFIX|..];
    assert taken == address[..|taken|];
    assert Replaced(taken, ':', '-') == dashed[..|taken|];
    assert Uri(address, model) == PREFIX + dashed + (QUERY + model);
    if |taken| == |address| {
      assert head == PREFIX + dashed;
    } else {
      assert kept == "";
    }
    assert Fitting(Uri(address, model), |buffer|) == head + kept;
    HasNoNul(taken, address);
    assert buffer[..|head + kept|] == head + kept;
    TextIs(buffer, head + kept);
  }

  lemma HasNoNul(taken: string, address: string)
    requires IsText(address) && taken <= address
    ensures IsText(PREFIX + Replaced(taken, ':', '-'))
  {
    var r := Replaced(taken, ':', '-');
    forall i | 0 <= i < |r|
      ensures r[i] != '\0'
    {
      assert taken[i] == address[i] && address[i] in address;
    }
  }

  /** `format_uri`. */
  method FormatUri(address: string, model: string, uri: array<char>)
    requires IsText(address) && IsText(model) && uri.Length > |PREFIX|
    modifies uri
    ensures Text(uri[..]) == Fitting(Uri(address, model), uri.Length)
  {
    ghost var first := Fitting(PREFIX + address, uri.Length);
    Print(uri, 0, PREFIX + address);
    var p := Dashed(uri, |PREFIX|, first);
    ghost var head := first[..|PREFIX|] + Replaced(first[|PREFIX|..], ':', '-');
    Print(uri, p, QUERY + model);
    assert uri[..][..p] == head;
    Assembled(uri[..], head, address, model);
  }

  /** The loop of `format_uri` over the string from `start` on; it stops at the end of the string. */
  method Dashed(uri: array<char>, start: nat, ghost text: string) returns (p: nat)
    requires start <= |text| < uri.Length && IsText(text) && uri[..|text|] == text && uri[|text|] == '\0'
    modifies uri
    ensures p == |text| && uri[..p] == text[..start] + Replaced(text[start..], ':', '-')
  {
    assert forall i :: 0 <= i < |text| ==> text[i] in text;
    p := start;
    while uri[p] != '\0'
      invariant start <= p <= |text|
      invariant forall i :: 0 <= i < p ==> uri[i] == if i >= start && text[i] == ':' then '-' else text[i]
      invariant forall i :: p <= i < |text| ==> uri[i] == text[i]
      invariant uri[|text|] == '\0'
      decreases |text| - p
    {
      if uri[p] == ':' {
        uri[p] := '-';
      }
      p := p + 1;
    }
  }

  /** `parse_address`. Nothing is written unless the address fits. */
  method ParseAddress(uri: string, address: array<char>) returns (ok: bool)
    requires IsText(uri)
    modifies address
    ensures ok <==> AddressIn(uri, address.Length).Some?
    ensures ok ==> Text(address[..]) == AddressIn(uri, address.Length).value
    ensures !ok ==> address[..] == old(address[..])
  {
    if !(PREFIX <= uri) {
      return false;
    }
    var host := uri[|PREFIX|..];
    var len := Span(host, "/?#");
    if len == 0 || len >= address.Length {
      return false;
    }
    for i := 0 to len
      invariant forall k :: 0 <= k < i ==> address[k] == if host[k] == '-' then ':' else host[k]
    {
      address[i] := if host[i] == '-' then ':' else host[i];
    }
    address[len] := '\0';
    ghost var value := Replaced(host[..len], '-', ':');
    assert forall k :: 0 <= k < len ==> host[k] == uri[|PREFIX| + k] && uri[|PREFIX| + k] in uri;
    assert forall k :: 0 <= k < len ==> value[k] != '\0';
    assert address[..len] == value;
    TextIs(address[..], value);
    ok := true;
  }

  /** The loop of `phomemo_uri_model` over the members of the query. */
  method FindValue(uri: string, query: nat) returns (value: Option<nat>)
    requires query < |uri|
    ensures value == LastValue(uri, query, None)
  {
    hide LastValue, Span, NextMember;
    value := None;
    var p := query;
    while p < |uri|
      invariant query <= p <= |uri|
      invariant value.Some? ==> value.value <= |uri|
      invariant LastValue(uri, query, None) == if p < |uri| then LastValue(uri, p, value) else value
      decreases |uri| - p
    {
      ValueStep(uri, p, value);
      if NamesModel(uri, p) {
        value := Some(p + 7);
      }
      p := NextMember(uri, p);
    }
  }

  /** `memcpy` of a string and its closing NUL. */
  method CopyText(text: string, buffer: array<char>)
    requires IsText(text) && |text| < buffer.Length
    modifies buffer
    ensures Text(buffer[..]) == text
  {
    forall i | 0 <= i < |text| {
      buffer[i] := text[i];
    }
    buffer[|text|] := '\0';
    assert buffer[..|text|] == text;
    TextIs(buffer[..], text);
  }

  /** `phomemo_uri_model`. */
  method UriModel(uri: string, buffer: array<char>) returns (ok: bool)
    requires IsText(uri)
    modifies buffer
    ensures ok <==> ModelIn(uri, buffer.Length).Some?
    ensures ok ==> Text(buffer[..]) == ModelIn(uri, buffer.Length).value
    ensures !ok ==> buffer[..] == old(buffer[..])
  {
    hide LastValue, Text;
    var query := Span(uri, "?");
    if query == |uri| {
      return false;
    }
    var value := FindValue(uri, query);
    if value.None? || value.value == |uri| {
      return false;
    }
    var rest := uri[value.value..];
    var len := Span(rest, "&#");
    if len >= buffer.Length {
      return false;
    }
    assert forall k :: 0 <= k < len ==> rest[k] == uri[value.value + k] && uri[value.value + k] in uri;
    CopyText(rest[..len], buffer);
    ok := true;
  }
}
