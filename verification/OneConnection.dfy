/** The printer connection all sessions share (`Bridge` of `phomemo/bridge/server.py`). */
module OneConnection {
  import opened Bytes

  /** `ble` stands for the UUIDs and write settings a connection is set up with. */
  datatype Profile = Profile(name: string, ble: nat)

  /** What a scan for known models finds. */
  datatype Device = Device(address: string, profile: Profile)

  datatype ConnectResult = Done | UnknownModel | NotAt(address: string) | NoneInRange | SeveralInRange | Refused

  function UpperChar(c: char): char { if 'a' <= c <= 'z' then c - 'a' + 'A' else c }

  /** `str.upper`, on the letters of an address. */
  function Upper(s: string): string { seq(|s|, i requires 0 <= i < |s| => UpperChar(s[i])) }

  /** Two addresses are taken for the same if they differ in the case of letters only. */
  predicate SameButCase(s: string, t: string) {
    |s| == |t| && forall i :: 0 <= i < |s| ==>
      s[i] == t[i] || ('a' <= s[i] <= 'z' && t[i] as int == s[i] as int - 32)
      || ('a' <= t[i] <= 'z' && s[i] as int == t[i] as int - 32)
  }

  lemma UpperIgnoresCase(s: string, t: string)
    ensures Upper(s) == Upper(t) <==> SameButCase(s, t)
  {
    if Upper(s) == Upper(t) {
      forall i | 0 <= i < |s|
        ensures |t| == |s| && UpperChar(s[i]) == UpperChar(t[i])
      {
        assert Upper(s)[i] == Upper(t)[i];
      }
    }
    if SameButCase(s, t) {
      assert forall i :: 0 <= i < |s| ==> UpperChar(s[i]) == UpperChar(t[i]);
    }
  }

  /** The first device found that may be meant: at the address, or any without one. */
  function FirstAt(found: seq<Device>, address: Option<string>): (i: nat)
    ensures i <= |found|
    ensures forall k :: 0 <= k < i ==> address.Some? && Upper(found[k].address) != Upper(address.value)
    ensures i < |found| && address.Some? ==> Upper(found[i].address) == Upper(address.value)
  {
    if found == [] || address.None? || Upper(found[0].address) == Upper(address.value) then 0
    else 1 + FirstAt(found[1..], address)
  }

  /** What `_new_printer` makes of a scan: a model named needs none, an address one device at it, else one alone. */
  function Scan(address: Option<string>, model: Option<string>, found: seq<Device>): ConnectResult {
    if model.Some? then Done
    else if address.Some? then (if FirstAt(found, address) < |found| then Done else NotAt(address.value))
    else if |found| == 0 then NoneInRange
    else if |found| == 1 then Done
    else SeveralInRange
  }

  /** A `Printer`, as far as its connection goes. */
  class BlePrinter {
    var profile: Profile
    var address: Option<string>
    var connected: bool

    constructor (profile: Profile, address: Option<string>)
      ensures !connected && this.profile == profile && this.address == address
    {
      this.profile, this.address, connected := profile, address, false;
    }

    /** A scan or the connect may fail; a printer found by its name keeps its address. */
    method Connect() returns (ok: bool)
      requires !connected
      modifies this
      ensures ok == connected && profile == old(profile)
      ensures old(address).Some? ==> address == old(address)
      ensures ok ==> address.Some?
    {
      ok := *;
      if ok && address.None? {
        var found: string := *;
        address := Some(found);
      }
      connected := ok;
    }

    method Disconnect()
      modifies this
      ensures !connected && profile == old(profile) && address == old(address)
    {
      connected := false;
    }

    /** A query of the serial: it may go unanswered, and the printer may go away. */
    method QuerySerial() returns (answered: bool)
      modifies this`connected
      ensures connected ==> old(connected)
    {
      var drops: bool := *;
      connected := connected && !drops;
      answered := *;
      answered := answered && connected;
    }
  }

  class Bridge {
    const models: map<string, Profile>
    var printer: BlePrinter?
    var modelExplicit: bool
    var holdArmed: bool
    /** Every printer object the bridge has held. */
    ghost var held: set<BlePrinter>
    /** The calls answered so far, with their results. */
    ghost var served: seq<(Call, ConnectResult)>

    /** At most one of them is connected, and it is the one the bridge knows. */
    ghost predicate Valid()
      reads this, held
    {
      && (printer != null ==> printer in held)
      && forall p <- held :: p.connected ==> p == printer
    }

    constructor (models: map<string, Profile>)
      ensures Valid() && printer == null && held == {} && served == [] && this.models == models
    {
      this.models := models;
      printer, modelExplicit, holdArmed, held, served := null, false, false, {}, [];
    }

    predicate Connected()
      reads this, printer
    {
      printer != null && printer.connected
    }

    /** The body of `disconnect`. */
    method Drop()
      requires Valid()
      modifies this, held
      ensures Valid() && printer == old(printer) && held == old(held) && !Connected() && !holdArmed
      ensures modelExplicit == old(modelExplicit) && served == old(served)
      ensures printer != null ==> printer.address == old(printer.address) && printer.profile == old(printer.profile)
    {
      holdArmed := false;
      if printer != null && printer.connected {
        printer.Disconnect();
      }
    }

    method Disconnect()
      requires Valid()
      modifies this, held
      ensures Valid() && printer == old(printer) && held == old(held) && !Connected() && !holdArmed
      ensures served == old(served) + [(DisconnectCall, Done)]
    {
      Drop();
      served := served + [(DisconnectCall, Done)];
    }

    /** `_new_printer`: an unconnected printer object, or why there is none. */
    method NewPrinter(address: Option<string>, model: Option<string>, found: seq<Device>)
      returns (r: ConnectResult, p: BlePrinter?)
      requires model.Some? ==> model.value in models
      ensures r == Done ==> p != null && fresh(p) && !p.connected
      ensures r == Scan(address, model, found)
      ensures r == NoneInRange <==> model.None? && address.None? && |found| == 0
      ensures r == SeveralInRange <==> model.None? && address.None? && |found| > 1
      ensures r.NotAt? <==> model.None? && address.Some? &&
                            forall d <- found :: Upper(d.address) != Upper(address.value)
      ensures r.NotAt? ==> r.address == address.value
      ensures r == Done && model.Some? ==> p.profile == models[model.value] && p.address == address
      ensures r == Done && model.None? ==>
                var device := found[FirstAt(found, address)];
                p.profile == device.profile && p.address == Some(device.address)
    {
      r, p := Done, null;
      if model.Some? {
        p := new BlePrinter(models[model.value], address);
        return;
      }
      var device: Device;
      if address.Some? {
        var i := 0;
        while i < |found| && Upper(found[i].address) != Upper(address.value)
          invariant 0 <= i <= FirstAt(found, address)
        {
          i := i + 1;
        }
        if i == |found| {
          return NotAt(address.value), null;
        }
        device := found[i];
      } else if |found| == 0 {
        return NoneInRange, null;
      } else if |found| > 1 {
        return SeveralInRange, null;
      } else {
        device := found[0];
      }
      p := new BlePrinter(device.profile, Some(device.address));
    }

    /**
     * `_refine_model`: the serial may point to another model; one with other settings needs a new
     * printer object, and the old one is disconnected first.
     */
    method RefineModel(resolved: Option<Profile>) returns (ok: bool, answered: bool)
      requires Valid() && printer != null && printer.address.Some?
      modifies this, held
      ensures Valid() && old(held) <= held && fresh(held - old(held))
      ensures printer != null && printer.address == old(printer.address)
      ensures modelExplicit == old(modelExplicit) && holdArmed == old(holdArmed) && served == old(served)
      ensures old(modelExplicit) ==> ok && printer == old(printer) && printer.profile == old(printer.profile)
      ensures !answered || resolved.None? ==>
                ok && printer == old(printer) && printer.profile == old(printer.profile)
      ensures answered && resolved.Some? && !old(modelExplicit) ==>
                && printer.profile == resolved.value
                && (printer == old(printer) <==> resolved.value.ble == old(printer.profile).ble)
    {
      answered := printer.QuerySerial();
      if !answered || resolved.None? || resolved.value == printer.profile || modelExplicit {
        return true, answered;
      }
      if resolved.value.ble == printer.profile.ble {
        printer.profile := resolved.value;
        return true, answered;
      }
      printer.Disconnect();
      var p := new BlePrinter(resolved.value, printer.address);
      held := held + {p};
      printer := p;
      ok := p.Connect();
    }

    /** `connect`. `found` and `resolved` are what a scan and the serial would say. */
    method Connect(address: Option<string>, model: Option<string>, found: seq<Device>, resolved: Option<Profile>)
      returns (r: ConnectResult)
      requires Valid()
      modifies this, held
      ensures Valid() && old(held) <= held && fresh(held - old(held)) && !holdArmed
      ensures served == old(served) + [(ConnectCall(address, model, found, resolved), r)]
      ensures model.Some? && model.value !in models <==> r == UnknownModel
      ensures r == UnknownModel ==> printer == old(printer)
      ensures r.NotAt? || r == NoneInRange || r == SeveralInRange ==>
                printer == null && r == Scan(address, model, found)
      ensures r == Done && address.Some? ==>
                printer != null && printer.address.Some? && Upper(printer.address.value) == Upper(address.value)
      ensures r == Done ==> printer != null
      ensures old(Connected()) && (model.Some? ==> model.value in models)
              && (address.Some? ==> address == old(printer.address))
              && (model.Some? ==> models[model.value].name == old(printer.profile.name)) ==>
                r == Done && printer == old(printer) && Connected() && printer.profile == old(printer.profile)
      ensures r == Done && model.Some? && (old(printer) == null || modelExplicit) ==>
                printer.profile.name == models[model.value].name
    {
      holdArmed := false;
      if model.Some? && model.value !in models {
        r := UnknownModel;
      } else {
        if printer != null && Elsewhere(address, model) {
          Drop();
          printer := null;
        }
        if printer != null && printer.connected {
          r := Done;
        } else {
          r := OpenPrinter(address, model, found, resolved);
        }
      }
      served := served + [(ConnectCall(address, model, found, resolved), r)];
    }

    /** The call names another printer or another model than the one the bridge has. */
    predicate Elsewhere(address: Option<string>, model: Option<string>)
      requires printer != null && (model.Some? ==> model.value in models)
      reads this, printer
    {
      (address.Some? && address != printer.address) || (model.Some? && models[model.value].name != printer.profile.name)
    }

    /** The part of `connect` behind the reuse of a held connection. */
    method OpenPrinter(address: Option<string>, model: Option<string>, found: seq<Device>, resolved: Option<Profile>)
      returns (r: ConnectResult)
      requires Valid() && !Connected() && (model.Some? ==> model.value in models)
      modifies this, held
      ensures Valid() && old(held) <= held && fresh(held - old(held))
      ensures holdArmed == old(holdArmed) && served == old(served)
      ensures old(printer) != null ==> r == Done || r == Refused
      ensures old(printer) == null ==> modelExplicit == model.Some? || r != Done
      ensures r == Done || r == Refused || (printer == null && r == Scan(address, model, found))
      ensures r == Done ==> printer != null
      ensures r == Done && old(printer) != null ==> printer.address.Some? && modelExplicit == old(modelExplicit)
      ensures r == Done && old(printer) != null && old(printer.address).Some? ==>
                printer.address == old(printer.address)
      ensures r == Done && old(printer) != null && modelExplicit ==> printer.profile == old(printer.profile)
      ensures r == Done && old(printer) == null && address.Some? ==>
                printer.address.Some? && Upper(printer.address.value) == Upper(address.value)
      ensures r == Done && old(printer) == null && model.Some? ==> printer.profile == models[model.value]
    {
      if printer == null {
        var p: BlePrinter?;
        r, p := NewPrinter(address, model, found);
        if r != Done {
          return;
        }
        held := held + {p};
        printer, modelExplicit := p, model.Some?;
      }
      var ok := printer.Connect();
      if !ok {
        return Refused;
      }
      var answered;
      ok, answered := RefineModel(resolved);
      r := if ok then Done else Refused;
    }

    /** `start_hold`: only a live connection is held. */
    method StartHold(minutes: real)
      requires Valid()
      modifies this
      ensures Valid() && printer == old(printer) && held == old(held)
      ensures holdArmed <==> Connected() && minutes > 0.0
      ensures served == old(served) + [(HoldCall(minutes), Done)]
    {
      holdArmed := Connected() && minutes > 0.0;
      served := served + [(HoldCall(minutes), Done)];
    }
  }

  /** Any history of calls on one bridge. */
  datatype Call =
    | ConnectCall(address: Option<string>, model: Option<string>, found: seq<Device>, resolved: Option<Profile>)
    | DisconnectCall
    | HoldCall(minutes: real)

  /**
   * Over every history of calls, each answered in turn, at most one printer the bridge has held is
   * connected, and none it has let go of.
   */
  method Serve(models: map<string, Profile>, calls: seq<Call>) returns (b: Bridge)
    ensures fresh(b) && forall p <- b.held, q <- b.held :: p.connected && q.connected ==> p == q == b.printer
    ensures |b.served| == |calls| && forall k :: 0 <= k < |calls| ==> b.served[k].0 == calls[k]
  {
    b := new Bridge(models);
    for i := 0 to |calls|
      invariant b.Valid() && fresh(b) && fresh(b.held)
      invariant |b.served| == i && forall k :: 0 <= k < i ==> b.served[k].0 == calls[k]
    {
      match calls[i]
      case ConnectCall(address, model, found, resolved) =>
        var r := b.Connect(address, model, found, resolved);
      case DisconnectCall =>
        b.Disconnect();
      case HoldCall(minutes) =>
        b.StartHold(minutes);
    }
  }
}
