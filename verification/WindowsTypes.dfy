/** What the Windows sides share. */
module WindowsTypes {
  newtype DWORD = x: int | 0 <= x < 0x1_0000_0000
}
