/** The status of one line of the report and the character that opens the line */
module LineStatus {
  import opened Base

  datatype LineStatus = Deleted | Added | Modified | Error | ErrorDescription {
    /** `LineStatus::indicator`. The table is one-to-one: `StatusOf` reads the status back
        from the character, and the character is printable ASCII other than the space
        that follows it, so the byte written for it (`as u8`) loses nothing. */
    function Indicator(): (c: char)
      ensures StatusOf(c) == Some(this)
      ensures 0x21 <= c as int < 0x7F
    {
      match this
      case Deleted => '-'
      case Added => '+'
      case Modified => '~'
      case Error => '!'
      case ErrorDescription => '^'
    }

    /** The indicator as the byte that opens a line */
    function IndicatorByte(): (b: byte)
      ensures b as int == Indicator() as int
      ensures StatusOfByte(b) == Some(this)
    {
      Indicator() as int as byte
    }
  }

  /** The status a line opening with `c` reports, if any */
  function StatusOf(c: char): Option<LineStatus> {
    match c
    case '-' => Some(Deleted)
    case '+' => Some(Added)
    case '~' => Some(Modified)
    case '!' => Some(Error)
    case '^' => Some(ErrorDescription)
    case _ => None
  }

  function StatusOfByte(b: byte): Option<LineStatus> {
    StatusOf(b as int as char)
  }

  /** Two statuses with the same indicator are the same status. */
  lemma IndicatorInjective(s: LineStatus, t: LineStatus)
    requires s.Indicator() == t.Indicator()
    ensures s == t
  {
    assert StatusOf(s.Indicator()) == Some(s) && StatusOf(t.Indicator()) == Some(t);
  }
}
