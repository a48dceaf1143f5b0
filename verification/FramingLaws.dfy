/** The laws that `Framing` asks of a JSON encoder and decoder can be met: here is a pair that meets them. */
module FramingLaws {
  import opened Bytes
  import opened Framing

  /** A number as that many ones and a zero. */
  function Unary(n: nat): seq<byte> {
    if n == 0 then [0] else [1] + Unary(n - 1)
  }

  function UnaryAll(ns: seq<nat>): seq<byte> {
    if ns == [] then [] else Unary(ns[0]) + UnaryAll(ns[1..])
  }

  function IntCode(z: int): nat { if z >= 0 then 2 * z else -2 * z - 1 }

  function Chars(s: string): (ns: seq<nat>)
    ensures |ns| == |s| && forall i :: 0 <= i < |s| ==> ns[i] == s[i] as int
  {
    if s == [] then [] else [s[0] as int] + Chars(s[1..])
  }

  function StringCode(s: string): seq<nat> { [|s|] + Chars(s) }

  function OptionCode(s: Option<string>): seq<nat> { if s.None? then [0] else [1] + StringCode(s.value) }

  function OkCode(ok: Option<bool>): nat { if ok.None? then 0 else if ok.value then 1 else 2 }

  function SizeCode(z: Size): nat { if z.Integer? then 1 + IntCode(z.n) else 0 }

  function Numbers(m: Message): seq<nat> {
    [if m.event then 1 else 0, OkCode(m.ok), IntCode(m.count), SizeCode(m.size)]
    + (OptionCode(m.cmd) + (OptionCode(m.error) + StringCode(m.rest)))
  }

  function Write(m: Message): seq<byte> { UnaryAll(Numbers(m)) }

  ghost predicate Writes(m: Message, s: seq<byte>) { Plain(m) && Write(m) == s }

  ghost function ReadBack(s: seq<byte>): Json {
    if exists m :: Writes(m, s) then var m :| Writes(m, s); Object(m) else Malformed
  }

  lemma {:induction false} UnaryPrefixFree(a: nat, x: seq<byte>, b: nat, y: seq<byte>)
    requires Unary(a) + x == Unary(b) + y
    ensures a == b && x == y
  {
    var s := Unary(a) + x;
    if a == 0 || b == 0 {
      assert s[0] == Unary(a)[0] == Unary(b)[0];
      assert s[1..] == x == y;
    } else {
      assert s[1..] == Unary(a - 1) + x == Unary(b - 1) + y;
      UnaryPrefixFree(a - 1, x, b - 1, y);
    }
  }

  lemma {:induction false} UnaryInjective(a: seq<nat>, b: seq<nat>)
    requires UnaryAll(a) == UnaryAll(b)
    ensures a == b
  {
    if a != [] && b != [] {
      UnaryPrefixFree(a[0], UnaryAll(a[1..]), b[0], UnaryAll(b[1..]));
      UnaryInjective(a[1..], b[1..]);
      assert a == [a[0]] + a[1..] && b == [b[0]] + b[1..];
    }
  }

  lemma {:induction false} OnlyBits(n: nat)
    ensures forall b <- Unary(n) :: b <= 1
  {
    if n > 0 {
      OnlyBits(n - 1);
    }
  }

  lemma {:induction false} NoNewline(ns: seq<nat>)
    ensures forall b <- UnaryAll(ns) :: b <= 1
  {
    if ns != [] {
      OnlyBits(ns[0]);
      NoNewline(ns[1..]);
    }
  }

  lemma StringPrefixFree(a: string, x: seq<nat>, b: string, y: seq<nat>)
    requires StringCode(a) + x == StringCode(b) + y
    ensures a == b && x == y
  {
    var s := StringCode(a) + x;
    assert s[0] == |a| == |b|;
    assert s[1..] == Chars(a) + x == Chars(b) + y;
    assert s[1..][..|a|] == Chars(a) == Chars(b);
    assert s[1..][|a|..] == x == y;
    forall i | 0 <= i < |a|
      ensures a[i] == b[i]
    {
      assert Chars(a)[i] == Chars(b)[i];
    }
  }

  lemma OptionPrefixFree(a: Option<string>, x: seq<nat>, b: Option<string>, y: seq<nat>)
    requires OptionCode(a) + x == OptionCode(b) + y
    ensures a == b && x == y
  {
    hide StringCode, OptionCode;
    var s := OptionCode(a) + x;
    OptionHead(a, x);
    OptionHead(b, y);
    if a.Some? {
      StringPrefixFree(a.value, x, b.value, y);
    }
  }

  lemma OptionHead(a: Option<string>, x: seq<nat>)
    ensures OptionCode(a) + x == if a.None? then [0] + x else [1] + (StringCode(a.value) + x)
    ensures (OptionCode(a) + x)[0] == if a.None? then 0 else 1
    ensures (OptionCode(a) + x)[1..] == if a.None? then x else StringCode(a.value) + x
  {
    hide StringCode;
  }

  lemma NumbersInjective(a: Message, b: Message)
    requires Plain(a) && Plain(b) && Numbers(a) == Numbers(b)
    ensures a == b
  {
    var s := Numbers(a);
    hide OptionCode, StringCode;
    assert s[0] == (if a.event then 1 else 0) && s[1] == OkCode(a.ok) && s[2] == IntCode(a.count)
           && s[3] == SizeCode(a.size);
    assert s[0] == (if b.event then 1 else 0) && s[1] == OkCode(b.ok) && s[2] == IntCode(b.count)
           && s[3] == SizeCode(b.size);
    var x, y := OptionCode(a.error) + StringCode(a.rest), OptionCode(b.error) + StringCode(b.rest);
    assert s[4..] == OptionCode(a.cmd) + x == OptionCode(b.cmd) + y;
    OptionPrefixFree(a.cmd, x, b.cmd, y);
    OptionPrefixFree(a.error, StringCode(a.rest), b.error, StringCode(b.rest));
    assert StringCode(a.rest) + [] == StringCode(a.rest) && StringCode(b.rest) + [] == StringCode(b.rest);
    StringPrefixFree(a.rest, [], b.rest, []);
  }

  /** A pair for which the laws hold, so that what is proved from them is proved of something. */
  lemma LawsCanBeMet()
    ensures JsonLaws(Write, ReadBack)
  {
    forall m | Plain(m)
      ensures ReadBack(Write(m)) == Object(m) && NEWLINE !in Write(m)
    {
      assert Writes(m, Write(m));
      NoNewline(Numbers(m));
      forall n | Writes(n, Write(m))
        ensures n == m
      {
        UnaryInjective(Numbers(n), Numbers(m));
        NumbersInjective(n, m);
      }
    }
  }
}
