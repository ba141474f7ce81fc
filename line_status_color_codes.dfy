/** The color each line status is printed in, or no color at all */
module LineStatusColorCodes {
  import opened Base
  import opened ColorCodes
  import opened LineStatus

  datatype LineStatusColorCodes = LineStatusColorCodes(
    deleted: Bytes, added: Bytes, modified: Bytes, error: Bytes,
    /** Restores the foreground color the terminal had */
    reset: Bytes)
  {
    /** `get`: the code for `status`; an error's description shares the error's code. */
    function Get(status: LineStatus): (r: Bytes)
      ensures status == Deleted ==> r == deleted
      ensures status == Added ==> r == added
      ensures status == Modified ==> r == modified
      ensures status == Error || status == ErrorDescription ==> r == error
    {
      match status
      case Deleted => deleted
      case Added => added
      case Modified => modified
      case Error => error
      case ErrorDescription => error
    }
  }

  /** `no_color`: every code, the reset included, is empty. */
  function NoColor(): (c: LineStatusColorCodes)
    ensures c.reset == [] && forall s: LineStatus :: c.Get(s) == []
  {
    LineStatusColorCodes([], [], [], [], [])
  }

  /** `color`: yellow for deleted, green for added, blue for modified, red for errors */
  function Color(): (c: LineStatusColorCodes)
    ensures c.Get(Deleted) == YELLOW && c.Get(Added) == GREEN && c.Get(Modified) == BLUE
    ensures c.Get(Error) == RED && c.Get(ErrorDescription) == RED && c.reset == RESET
  {
    LineStatusColorCodes(YELLOW, GREEN, BLUE, RED, RESET)
  }

  /** With colors on, the four kinds of report line are told apart by color alone, and no
      status is printed in the reset color. */
  lemma ColorsDistinct(s: LineStatus, t: LineStatus)
    requires s != ErrorDescription && t != ErrorDescription && s != t
    ensures Color().Get(s) != Color().Get(t)
    ensures Color().Get(s) != Color().reset
  {
    var c := Color();
    assert c.Get(s)[3] != c.Get(t)[3];
    assert c.Get(s)[3] != c.reset[3];
  }
}
