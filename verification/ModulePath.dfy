/** The doubling-buffer loop of the Windows GetModulePathFromAddress. */
module ModulePath {
  import opened WindowsTypes

  const MAX_PATH: DWORD := 260
  /** The longest path the system knows, without its terminator. */
  const LONGEST_PATH: nat := 32767

  /** GetModuleFileNameW: 0 if the system refuses a call with this size; otherwise the path's
      length if it fits with its terminator, or else the buffer's size after filling the buffer
      with the start of the path. */
  method GetModuleFileName(path: string, refused: DWORD -> bool, buffer: array<char>, size: DWORD)
    returns (copied: DWORD)
    requires |path| <= LONGEST_PATH && buffer.Length == size as int && size > 0
    modifies buffer
    ensures copied as int == if refused(size) then 0 else if |path| < size as int then |path| else size as int
    ensures !refused(size) && |path| < size as int ==> buffer[..|path|] == path
  {
    if refused(size) {
      return 0;
    }
    var kept := if |path| < size as int then |path| else size as int - 1;
    forall i | 0 <= i < kept {
      buffer[i] := path[i];
    }
    buffer[kept] := '\0';
    assert |path| < size as int ==> buffer[..kept] == path;
    return if |path| < size as int then |path| as DWORD else size;
  }

  /** The largest buffer the loop can ask for: never more than twice what the path calls for. */
  function LargestBuffer(path: string): (n: nat)
  {
    if 2 * (|path| + 1) < MAX_PATH as int then MAX_PATH as int else 2 * (|path| + 1)
  }

  /** The path is returned whole or, when the system refuses a call, not at all; it is never cut
      off. No buffer is larger than the bound, so that the doubling cannot overflow. */
  method GetModulePathFromAddress(path: string, refused: DWORD -> bool) returns (result: string, size: DWORD)
    requires |path| <= LONGEST_PATH
    ensures MAX_PATH as int <= size as int <= LargestBuffer(path)
    // The last buffer is the first, doubled only as long as it left no room to spare.
    ensures !refused(size) ==> |path| + 1 < size as int
    ensures size == MAX_PATH || size as int <= 2 * (|path| + 1)
    ensures result == if refused(size) then "" else path
    ensures (forall n: DWORD | n as int <= LargestBuffer(path) :: !refused(n)) ==> result == path
  {
    result := "";
    size := MAX_PATH;
    while true
      invariant MAX_PATH as int <= size as int <= LargestBuffer(path)
      invariant size == MAX_PATH || size as int <= 2 * (|path| + 1)
      decreases 4 * LONGEST_PATH - size as int
    {
      var buffer := new char[size];
      var copied := GetModuleFileName(path, refused, buffer, size);
      if copied == 0 {
        break;
      }
      if copied < size - 1 {
        return buffer[..copied], size;
      }
      size := size * 2;
    }
  }
}
