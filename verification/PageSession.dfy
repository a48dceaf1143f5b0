/** The page a session is receiving (`PageBuffer`, `_cmd_page_begin`, `_cmd_lines`). */
module PageSession {
  import opened Bytes

  datatype Tone = Threshold | Ordered | Diffusion

  datatype Density = Low | Medium | High

  datatype PageError =
    | NeedsWidthAndLength | BadBits | WidthNotMultipleOf8 | NotPositive | UnknownTone | UnknownDensity
    | NoPage | WrongSize | TooManyRows | Incomplete(rows: nat, of: nat) | NoPrinter | CancelledByClient
    | NotConnectedError | ConnectionLost | InternalError

  datatype Result<T> = Ok(value: T) | Err(error: PageError)

  /** The "media_length_mm" member: missing or null, a number, or something `float` refuses. */
  datatype LengthArg = NoLength | Millimetres(mm: real) | NotALength

  /** The members of `page_begin`; None is a missing or unconvertible number. */
  datatype PageArgs = PageArgs(width: Option<int>, lengthRows: Option<int>, bits: Option<int>,
                               tone: string, content: string, density: string,
                               mediaLength: LengthArg, rotate: bool)

  datatype PageSpec = PageSpec(width: nat, lengthRows: nat, bits: nat, tone: Tone, density: Density,
                               mediaLength: Option<real>, rotate: bool) {
    function RowBytes(): nat { width * bits / 8 }

    ghost predicate Valid() {
      (bits == 1 || bits == 8) && width >= 1 && lengthRows >= 1 && (bits == 1 ==> width % 8 == 0)
    }
  }

  /** Contents that "auto" prints in plain black and white. */
  const TEXT_LIKE := {"text", "graphic"}

  function ToneOf(tone: string, content: string): Option<Tone> {
    if tone == "auto" then Some(if content in TEXT_LIKE then Threshold else Diffusion)
    else if tone == "threshold" then Some(Threshold)
    else if tone == "ordered" then Some(Ordered)
    else if tone == "diffusion" then Some(Diffusion)
    else None
  }

  function DensityOf(name: string): Option<Density> {
    if name == "low" then Some(Low)
    else if name == "medium" then Some(Medium)
    else if name == "high" then Some(High)
    else None
  }

  function SpecOf(a: PageArgs, mediaLength: Option<real>): PageSpec
    requires a.width.Some? && a.width.value >= 0 && a.lengthRows.Some? && a.lengthRows.value >= 0
    requires a.bits.Some? && a.bits.value >= 0
    requires ToneOf(a.tone, a.content).Some? && DensityOf(a.density).Some?
  {
    PageSpec(a.width.value, a.lengthRows.value, a.bits.value, ToneOf(a.tone, a.content).value,
             DensityOf(a.density).value, mediaLength, a.rotate)
  }

  predicate Numeric(a: PageArgs) { a.width.Some? && a.lengthRows.Some? && a.bits.Some? }

  /** What is wrong with a request answered with this error. */
  predicate Refused(a: PageArgs, e: PageError) {
    match e
    case NeedsWidthAndLength => !Numeric(a)
    case BadBits => Numeric(a) && a.bits.value !in {1, 8}
    case WidthNotMultipleOf8 => Numeric(a) && a.bits.value == 1 && a.width.value % 8 != 0
    case NotPositive => Numeric(a) && (a.width.value <= 0 || a.lengthRows.value <= 0)
    case UnknownTone => a.tone !in {"auto", "threshold", "ordered", "diffusion"}
    case UnknownDensity => a.density !in {"low", "medium", "high"}
    case InternalError => a.mediaLength.NotALength?
    case _ => false
  }

  /**
   * `_cmd_page_begin`, check by check. It accepts a request with nothing wrong, and then the page is
   * the request's: its width, rows, bits, media length and turn, the tone and density it names, and
   * for the tone "auto" the one its content calls for. A refusal names something that is wrong.
   */
  function BeginSpec(a: PageArgs): (r: Result<PageSpec>)
    ensures r.Ok? ==>
              r.value.Valid() && r.value.RowBytes() * 8 == r.value.width * r.value.bits && r.value.RowBytes() >= 1
    ensures r.Ok? <==> a.width.Some? && a.lengthRows.Some? && a.bits.Some? && a.bits.value in {1, 8}
                       && a.width.value > 0 && a.lengthRows.value > 0 && (a.bits.value == 1 ==> a.width.value % 8 == 0)
                       && a.tone in {"auto", "threshold", "ordered", "diffusion"}
                       && a.density in {"low", "medium", "high"} && !a.mediaLength.NotALength?
    ensures r.Err? ==> Refused(a, r.error)
    ensures r.Ok? ==>
              && a.width == Some(r.value.width) && a.lengthRows == Some(r.value.lengthRows)
              && a.bits == Some(r.value.bits) && r.value.rotate == a.rotate
              && r.value.mediaLength == if a.mediaLength.NoLength? then None else Some(a.mediaLength.mm)
    ensures r.Ok? ==>
              var auto := a.tone == "auto";
              && (r.value.tone == Threshold <==> a.tone == "threshold" || (auto && a.content in {"text", "graphic"}))
              && (r.value.tone == Ordered <==> a.tone == "ordered")
              && (r.value.tone == Diffusion <==> a.tone == "diffusion" || (auto && a.content !in {"text", "graphic"}))
    ensures r.Ok? ==>
              && (r.value.density == Low <==> a.density == "low")
              && (r.value.density == Medium <==> a.density == "medium")
              && (r.value.density == High <==> a.density == "high")
  {
    if a.width.None? || a.lengthRows.None? || a.bits.None? then Err(NeedsWidthAndLength)
    else
      var width, length, bits := a.width.value, a.lengthRows.value, a.bits.value;
      if bits != 1 && bits != 8 then Err(BadBits)
      else if bits == 1 && width % 8 != 0 then Err(WidthNotMultipleOf8)
      else if width <= 0 || length <= 0 then Err(NotPositive)
      else if ToneOf(a.tone, a.content).None? then Err(UnknownTone)
      else if DensityOf(a.density).None? then Err(UnknownDensity)
      else
        match a.mediaLength
        case NotALength => Err(InternalError)
        case NoLength => Ok(SpecOf(a, None))
        case Millimetres(mm) => Ok(SpecOf(a, Some(mm)))
  }

  class PageBuffer {
    const spec: PageSpec
    var rows: nat
    var data: seq<byte>

    ghost predicate Valid()
      reads this
    {
      spec.Valid() && rows <= spec.lengthRows && |data| == rows * spec.RowBytes()
    }

    constructor (s: PageSpec)
      requires s.Valid()
      ensures Valid() && spec == s && rows == 0 && data == []
    {
      spec := s;
      rows := 0;
      data := [];
    }
  }

  /** The session's `_page` and what the commands do to it. */
  class Pages {
    var page: PageBuffer?

    ghost predicate Valid()
      reads this, page
    {
      page != null ==> page.Valid()
    }

    constructor ()
      ensures page == null
    {
      page := null;
    }

    method PageBegin(a: PageArgs) returns (r: Result<()>)
      modifies this
      ensures BeginSpec(a).Err? ==> r == Err(BeginSpec(a).error) && page == old(page)
      ensures BeginSpec(a).Ok? ==> r == Ok(()) && fresh(page) && page.Valid()
                                   && page.spec == BeginSpec(a).value && page.rows == 0 && page.data == []
    {
      var spec := BeginSpec(a);
      if spec.Err? {
        return Err(spec.error);
      }
      page := new PageBuffer(spec.value);
      r := Ok(());
    }

    /** `_cmd_lines`: takes the rows whole or not at all. */
    method Lines(count: int, payload: seq<byte>) returns (r: Result<nat>)
      requires Valid()
      modifies page
      ensures Valid() && page == old(page)
      ensures page == null ==> r == Err(NoPage)
      ensures page != null ==>
                var good := count > 0 && |payload| == count * page.spec.RowBytes();
                && (r.Ok? <==> good && old(page.rows) + count <= page.spec.lengthRows)
                && (r.Ok? ==> page.data == old(page.data) + payload && page.rows == old(page.rows) + count == r.value)
                && (r.Err? ==> page.data == old(page.data) && page.rows == old(page.rows))
                && (r.Err? ==> r.error == if good then TooManyRows else WrongSize)
    {
      if page == null {
        return Err(NoPage);
      }
      if count <= 0 || |payload| != count * page.spec.RowBytes() {
        return Err(WrongSize);
      }
      if page.rows + count > page.spec.lengthRows {
        return Err(TooManyRows);
      }
      assert (page.rows + count) * page.spec.RowBytes()
             == page.rows * page.spec.RowBytes() + count * page.spec.RowBytes();
      page.data := page.data + payload;
      page.rows := page.rows + count;
      r := Ok(page.rows);
    }
  }
}
