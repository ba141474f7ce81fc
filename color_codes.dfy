/** VT100 escape sequences that select the foreground color */
module ColorCodes {
  import opened Base

  const ESC: byte := 0x1B

  /** ESC '[' '3' digit 'm'. `color` names the digit; 9 restores the default color. */
  function Sgr(color: nat): (r: Bytes)
    requires color <= 9
    ensures |r| == 5 && r[0] == ESC && r[1] as int == '[' as int && r[4] as int == 'm' as int
    ensures r[3] as int == '0' as int + color
  {
    [ESC, 0x5B, 0x33, (0x30 + color) as byte, 0x6D]
  }

  const RED: Bytes := Sgr(1)
  const GREEN: Bytes := Sgr(2)
  const YELLOW: Bytes := Sgr(3)
  const BLUE: Bytes := Sgr(4)
  const RESET: Bytes := Sgr(9)
}
