/**
 * Questions to the printer and their answers, end to end: the query a program writes, what the
 * printer sends back by its protocol reference, and what the parser of notifications makes of it.
 */
module QueryAnswers {
  import opened Bytes
  import opened Commands
  import opened Dispatch
  import Asides
  import Events
  import PrintHead

  /** What a printer can be asked about. */
  datatype Device = Device(lidOpen: bool, paper: bool, charge: byte, timer: byte, hardware: byte,
                           serial: seq<byte>, major: byte, minor: byte, patch: byte)

  /** The answer to `1f 11 x`, by the reference; most selectors have none. */
  function Answer(d: Device, selector: byte): seq<byte> {
    if selector == 0x08 then [0x1a, 0x04, d.charge]
    else if selector == 0x07 then [0x1a, 0x07, d.major, d.minor, d.patch]
    else if selector == 0x09 then [0x1a, 0x08] + d.serial
    else if selector == 0x13 then [0x1a, 0x03, d.hardware]
    else if selector == 0x11 then [0x1a, 0x06, if d.paper then 0x89 else 0x88]
    else if selector == 0x12 then [0x1a, 0x05, if d.lidOpen then 0x99 else 0x98]
    else if selector == 0x0e then [0x1a, 0x09, d.timer]
    else []
  }

  /** The questions of `printer.py`: the selector it writes and the events it waits for. */
  datatype Question = AskLid | AskPaper | AskBattery | AskFirmware | AskSerial | AskTimer {
    function Selector(): byte {
      match this
      case AskLid => LID_STATE
      case AskPaper => PAPER_STATE
      case AskBattery => BATTERY
      case AskFirmware => FIRMWARE
      case AskSerial => SERIAL_ASCII
      case AskTimer => DEVICE_TIMER
    }

    function Awaited(): Kind {
      match this
      case AskLid => LidKind
      case AskPaper => PaperKind
      case AskBattery => BatteryKind
      case AskFirmware => FirmwareKind
      case AskSerial => SerialKind
      case AskTimer => TimerKind
    }
  }

  /** What the event says is what is so. */
  predicate Says(e: Events.Event, q: Question, d: Device) {
    match q
    case AskLid => e.Lid? && e.open == d.lidOpen
    case AskPaper => e.Paper? && e.present == d.paper
    case AskBattery => e.Battery? && e.percent == Min(100, d.charge)
    case AskFirmware => e.Firmware? && e.major == d.major && e.minor == d.minor && e.patch == d.patch
    case AskSerial => e.AsciiSerial? && e.text == d.serial
    case AskTimer => e.Timer? && e.value == d.timer && e.minutes == 5 * d.timer
  }

  lemma OneTriple(data: seq<byte>)
    requires |data| == 3 && data[0] == 0x1a && data[1] != 0x07 && data[1] != 0x08
    ensures Events.Parse(data) == [Events.ParseOne(data)]
  {
    assert data[..3] == data && data[3..] == [];
    assert Events.Batch([]) == [];
  }

  lemma ShortAnswers(q: Question, d: Device)
    requires q != AskFirmware && q != AskSerial
    ensures |Answer(d, q.Selector())| == 3
    ensures Events.Parse(Answer(d, q.Selector())) == [Events.ParseOne(Answer(d, q.Selector()))]
    ensures Says(Events.ParseOne(Answer(d, q.Selector())), q, d)
  {
    OneTriple(Answer(d, q.Selector()));
    hide Events.Parse;
  }

  /**
   * Every question of the program reaches the printer as one query, read from ground; and the answer
   * it gives is one event, of the class the program waits for, that says what is so. A serial of fewer
   * than two bytes is not recognised as one.
   */
  lemma QuestionAnswered(q: Question, d: Device, done: seq<PrintHead.Command>) returns (e: Events.Event)
    requires q == AskSerial ==> |d.serial| >= 2
    ensures PrintHead.Run(PrintHead.Head(PrintHead.Ground, done), EncodeQuery(q.Selector()))
         == PrintHead.Head(PrintHead.Ground, done + [PrintHead.Query(q.Selector())])
    ensures Events.Parse(Answer(d, q.Selector())) == [e] && IsInstance(e, q.Awaited()) && Says(e, q, d)
  {
    Asides.AsideReads(Asides.Ask(q.Selector()), done);
    hide PrintHead.Run;
    var data := Answer(d, q.Selector());
    if q == AskFirmware {
      e := Events.Firmware(d.major, d.minor, d.patch, data);
    } else if q == AskSerial {
      e := Events.AsciiSerial(d.serial, data);
      assert data[2..] == d.serial;
    } else {
      ShortAnswers(q, d);
      e := Events.ParseOne(data);
    }
  }

  /** What the printer reports of itself: lid, paper, and the end of a job. */
  lemma ReportsAreRead()
    ensures Events.Parse([0x1a, 0x05, 0x99]) == [Events.Lid(true, [0x1a, 0x05, 0x99])]
    ensures Events.Parse([0x1a, 0x05, 0x98]) == [Events.Lid(false, [0x1a, 0x05, 0x98])]
    ensures Events.Parse([0x1a, 0x06, 0x89]) == [Events.Paper(true, [0x1a, 0x06, 0x89])]
    ensures Events.Parse([0x1a, 0x06, 0x88]) == [Events.Paper(false, [0x1a, 0x06, 0x88])]
    ensures Events.Parse([0x1a, 0x0f, 0x0c]) == [Events.MotorStop([0x1a, 0x0f, 0x0c])]
  {
    OneTriple([0x1a, 0x05, 0x99]);
    OneTriple([0x1a, 0x05, 0x98]);
    OneTriple([0x1a, 0x06, 0x89]);
    OneTriple([0x1a, 0x06, 0x88]);
    OneTriple([0x1a, 0x0f, 0x0c]);
    hide Events.Parse;
  }
}
