/**
 * The C string functions EspDataStorage relies on, over buffers of `char`:
 * strlen, strcat and fgets. A C string's content never holds NUL; a file's
 * content is assumed to hold none either.
 */
module CStrings {

  const NUL: char := '\0'

  /** The characters of a C string, without its terminating NUL. */
  type Content = s: string | NUL !in s

  /** strlen of a buffer: the index of its first NUL. */
  function StrLen(buf: seq<char>): (n: nat)
    requires NUL in buf
    ensures n < |buf| && buf[n] == NUL
    ensures NUL !in buf[..n]
  {
    if buf[0] == NUL then 0 else 1 + StrLen(buf[1..])
  }

  /** Only the first NUL can be the end of the string. */
  lemma StrLenAt(buf: seq<char>, n: nat)
    requires n < |buf| && buf[n] == NUL && NUL !in buf[..n]
    ensures StrLen(buf) == n
  {
  }

  /** The C string held in a buffer. */
  function CStr(buf: seq<char>): (s: Content)
    requires NUL in buf
    ensures |s| < |buf| && buf[|s|] == NUL
    ensures s == buf[..|s|]
  {
    buf[..StrLen(buf)]
  }

  /** strlen(dest), scanning for the terminator as the C function does. */
  method StrLenOf(dest: array<char>) returns (n: nat)
    requires NUL in dest[..]
    ensures n == |CStr(dest[..])|
  {
    n := 0;
    while dest[n] != NUL
      invariant n <= StrLen(dest[..])
      decreases StrLen(dest[..]) - n
    {
      n := n + 1;
    }
    StrLenAt(dest[..], n);
  }

  /** The copy loop of strcat: `line` overwrites the buffer from index `at` on. */
  method CopyAt(dest: array<char>, at: nat, line: string)
    requires at + |line| <= dest.Length
    modifies dest
    ensures dest[..at] == old(dest[..at])
    ensures dest[at..at + |line|] == line
    ensures dest[at + |line|..] == old(dest[at + |line|..])
  {
    var i := 0;
    while i < |line|
      invariant 0 <= i <= |line|
      invariant dest[..at] == old(dest[..at])
      invariant dest[at..at + i] == line[..i]
      invariant dest[at + |line|..] == old(dest[at + |line|..])
    {
      dest[at + i] := line[i];
      i := i + 1;
    }
  }

  /**
   * strcat(dest, line): `line` and a new terminator overwrite the buffer from
   * the old terminator on; the caller guarantees they fit. Nothing past the
   * new terminator changes.
   */
  method StrCat(dest: array<char>, line: Content)
    requires NUL in dest[..]
    requires |CStr(dest[..])| + |line| < dest.Length
    modifies dest
    ensures NUL in dest[..]
    ensures CStr(dest[..]) == old(CStr(dest[..])) + line
    ensures dest[|CStr(dest[..])| + 1..] == old(dest[..])[|CStr(dest[..])| + 1..]
  {
    ghost var before := CStr(dest[..]);
    var n := StrLenOf(dest);
    CopyAt(dest, n, line);
    ghost var mid := dest[..];
    assert mid[..n + |line|] == before + line by {
      assert mid[..n + |line|] == mid[..n] + mid[n..n + |line|];
    }
    dest[n + |line|] := NUL;
    assert dest[..] == mid[n + |line| := NUL];
    assert dest[..n + |line|] == before + line;
    assert dest[n + |line| + 1..] == mid[n + |line| + 1..];
    StrLenAt(dest[..], n + |line|);
  }

  /**
   * The characters one fgets(line, room + 1, f) call takes from the unread
   * part `rest` of a file: at most `room` of them, ending just after the
   * first newline.
   */
  function Fgets(rest: string, room: nat): (line: string)
    ensures line <= rest && |line| <= room
    ensures rest != [] && room > 0 ==> line != []
    ensures forall k :: 0 <= k < |line| - 1 ==> line[k] != '\n'
    ensures line == rest || |line| == room || line[|line| - 1] == '\n'
  {
    if rest == [] || room == 0 then []
    else if rest[0] == '\n' then [rest[0]]
    else [rest[0]] + Fgets(rest[1..], room - 1)
  }
}
