/**
 * The accumulation loop of EspDataStorage::read: fgets chunks of an open
 * file are appended to the caller's buffer with strcat for as long as the
 * buffer's string length stays within a limit.
 */
module FileRead {
  import opened CStrings

  /** The size of the `line` buffer given to fgets; one place is for the NUL. */
  const LINE_SIZE: nat := 100

  /** The next chunk fgets reads from the unread part of a file. */
  function NextLine(rest: string): (line: string)
  {
    Fgets(rest, LINE_SIZE - 1)
  }

  /** Whether the read succeeded, and the string the buffer then holds. */
  datatype ReadResult = ReadResult(ok: bool, dest: string)

  /**
   * The outcome of the loop when the buffer holds `acc` and `rest` is still
   * unread: stop with false as soon as the next chunk would take the string
   * length past `limit`, stop with true at end of file.
   */
  function ReadChunks(acc: string, rest: string, limit: int): (r: ReadResult)
    decreases |rest|
  {
    if rest == [] then ReadResult(true, acc)
    else
      var line := NextLine(rest);
      if limit < |acc| + |line| then ReadResult(false, acc)
      else ReadChunks(acc + line, rest[|line|..], limit)
  }

  /** The read succeeds exactly when the file is empty or all of it fits. */
  lemma {:induction false} ReadChunksSucceeds(acc: string, rest: string, limit: int)
    ensures ReadChunks(acc, rest, limit).ok <==> rest == [] || |acc| + |rest| <= limit
    decreases |rest|
  {
    if rest != [] {
      var line := NextLine(rest);
      if limit >= |acc| + |line| {
        ReadChunksSucceeds(acc + line, rest[|line|..], limit);
      }
    }
  }

  /**
   * On success the buffer holds what it held before followed by the whole
   * file; on overflow it holds what it held before followed by the chunks
   * appended so far, a proper prefix of that, and the next chunk is the one
   * that would not fit.
   */
  lemma {:induction false} ReadChunksContent(acc: string, rest: string, limit: int)
    ensures var r := ReadChunks(acc, rest, limit);
      acc <= r.dest <= acc + rest &&
      (r.ok ==> r.dest == acc + rest) &&
      (!r.ok ==> |r.dest| < |acc + rest| &&
                 limit < |r.dest| + |NextLine((acc + rest)[|r.dest|..])|)
    decreases |rest|
  {
    if rest != [] {
      var line := NextLine(rest);
      if limit < |acc| + |line| {
        assert (acc + rest)[|acc|..] == rest;
      } else {
        var rest' := rest[|line|..];
        assert acc + rest == (acc + line) + rest' by {
          assert rest == line + rest';
        }
        ReadChunksContent(acc + line, rest', limit);
      }
    }
  }

  /** Once a chunk has been appended, the string length never exceeds the limit. */
  lemma {:induction false} ReadChunksBound(acc: string, rest: string, limit: int)
    ensures var r := ReadChunks(acc, rest, limit);
      r.dest == acc || |r.dest| <= limit
    decreases |rest|
  {
    if rest != [] {
      var line := NextLine(rest);
      if limit >= |acc| + |line| {
        ReadChunksBound(acc + line, rest[|line|..], limit);
      }
    }
  }

  /**
   * With read's check as written, a file of exactly `bufferLen` characters
   * read into an empty string is accepted whole, so strcat puts the
   * terminator at index `bufferLen`: one place past a buffer of `bufferLen`
   * chars.
   */
  lemma ReadAsWrittenFillsBuffer(content: Content, bufferLen: nat)
    requires 0 < |content| == bufferLen
    ensures var r := ReadChunks("", content, bufferLen);
      r.ok && r.dest == content && |r.dest| == bufferLen
  {
    ReadChunksSucceeds("", content, bufferLen);
    ReadChunksContent("", content, bufferLen);
  }

  /**
   * However the check is written, the string the loop ends with is never
   * longer than the old string and the whole file together: a file shorter
   * than a buffer that starts empty always leaves room for the terminator.
   */
  lemma ReadFitsShorterFile(acc: string, content: string, limit: int, capacity: nat)
    requires |acc| + |content| < capacity
    ensures |ReadChunks(acc, content, limit).dest| < capacity
  {
    ReadChunksContent(acc, content, limit);
  }

  /**
   * With the check refusing a chunk once string and terminator would not fit
   * in `bufferLen` places, whatever the loop appended leaves the terminator
   * inside the buffer, and a file that fits together with its terminator is
   * read whole.
   */
  lemma ReadWithinBufferFits(acc: string, content: string, bufferLen: nat)
    ensures var r := ReadChunks(acc, content, bufferLen - 1);
      (r.dest != acc ==> |r.dest| < bufferLen) &&
      (|acc| + |content| < bufferLen ==> r.ok && r.dest == acc + content)
  {
    ReadChunksBound(acc, content, bufferLen - 1);
    ReadChunksSucceeds(acc, content, bufferLen - 1);
    ReadChunksContent(acc, content, bufferLen - 1);
  }

  /** Dropping `i` and then `j` elements drops `i + j`. */
  lemma DropDrop(s: string, i: nat, j: nat)
    requires i + j <= |s|
    ensures s[i..][j..] == s[i + j..]
  {
  }

  /** Two sequences that agree from `i` on also agree from any later `j` on. */
  lemma SuffixFrom(a: seq<char>, b: seq<char>, i: nat, j: nat)
    requires i <= j <= |a| == |b| && a[i..] == b[i..]
    ensures a[j..] == b[j..]
  {
    assert a[j..] == a[i..][j - i..];
    assert b[j..] == b[i..][j - i..];
  }

  /**
   * What the loop leaves untouched, index by index: everything past the
   * terminator at `m`, and, once a chunk was appended (so `m <= limit`) or
   * when nothing was, everything past `limit`.
   */
  lemma ReadFrame(d: seq<char>, o: seq<char>, m: nat, limit: int, untouched: bool)
    requires m < |d| == |o| && d[m + 1..] == o[m + 1..]
    requires untouched ==> d == o
    requires !untouched ==> m <= limit
    ensures forall k :: m < k < |d| ==> d[k] == o[k]
    ensures forall k :: 0 <= k < |d| && limit < k ==> d[k] == o[k]
  {
    forall k | m < k < |d| ensures d[k] == o[k] {
      assert d[k] == d[m + 1..][k - m - 1];
    }
  }

  /**
   * The state of the loop when `pos` characters of the file have been read:
   * `d` is the buffer, `orig` the buffer before the loop, `acc` the string it
   * holds, `rest` the unread part of the file and `total` the outcome the loop
   * is heading for.
   */
  ghost predicate Reading(d: seq<char>, orig: seq<char>, content: string, pos: int,
                          acc: string, rest: string, total: ReadResult, limit: int)
  {
    0 <= pos <= |content| && rest == content[pos..] &&
    NUL in d && CStr(d) == acc && |d| == |orig| &&
    total == ReadChunks(acc, rest, limit) && |total.dest| < |d| &&
    d[|acc| + 1..] == orig[|acc| + 1..] &&
    (pos == 0 ==> d == orig) && (pos > 0 ==> |acc| <= limit)
  }

  /** While reading, a chunk that fits leaves room for itself and the terminator. */
  lemma ReadingRoom(d: seq<char>, orig: seq<char>, content: string, pos: int,
                    acc: string, rest: string, total: ReadResult, limit: int)
    requires Reading(d, orig, content, pos, acc, rest, total, limit) && pos < |content|
    ensures |acc| + |NextLine(content[pos..])| <= limit ==>
      |acc| + |NextLine(content[pos..])| < |d|
  {
    if |acc| + |NextLine(content[pos..])| <= limit {
      ReadChunksContent(acc + NextLine(rest), rest[|NextLine(rest)|..], limit);
    }
  }

  /**
   * One pass of the loop body moves the state on: an accepted chunk extends
   * the string and the read position; a refused one ends the loop with false.
   */
  lemma ReadingNext(d: seq<char>, d': seq<char>, orig: seq<char>, content: string, pos: int,
                    acc: string, rest: string, total: ReadResult, limit: int, next: int, fits: bool)
    requires Reading(d, orig, content, pos, acc, rest, total, limit) && pos < |content|
    requires NUL in d' && |d'| == |d|
    requires fits <==> |acc| + |NextLine(content[pos..])| <= limit
    requires fits ==> (next == pos + |NextLine(content[pos..])| &&
      CStr(d') == acc + NextLine(content[pos..]))
    requires !fits ==> (next == pos && d' == d)
    requires d'[|CStr(d')| + 1..] == d[|CStr(d')| + 1..]
    ensures var line := NextLine(content[pos..]);
      fits ==> Reading(d', orig, content, next, acc + line, rest[|line|..], total, limit)
    ensures !fits ==> total == ReadResult(false, acc)
  {
    var line := NextLine(rest);
    if fits {
      DropDrop(content, pos, |line|);
      SuffixFrom(d, orig, |acc| + 1, |acc| + |line| + 1);
      assert d'[|acc| + |line| + 1..] == orig[|acc| + |line| + 1..];
    }
  }

  /**
   * One pass of the loop body: fgets the next chunk of the file from `pos`,
   * and either refuse it (it would take the string past `limit`) or strcat
   * it. The buffer must have room for an accepted chunk and the terminator.
   */
  method ReadStep(content: Content, dest: array<char>, limit: int, pos: nat) returns (next: nat, fits: bool)
    requires pos < |content|
    requires NUL in dest[..]
    requires |CStr(dest[..])| + |NextLine(content[pos..])| <= limit ==>
      |CStr(dest[..])| + |NextLine(content[pos..])| < dest.Length
    modifies dest
    ensures NUL in dest[..]
    ensures fits <==> |old(CStr(dest[..]))| + |NextLine(content[pos..])| <= limit
    ensures fits ==> (next == pos + |NextLine(content[pos..])| &&
      CStr(dest[..]) == old(CStr(dest[..])) + NextLine(content[pos..]))
    ensures !fits ==> (next == pos && dest[..] == old(dest[..]))
    ensures dest[|CStr(dest[..])| + 1..] == old(dest[..])[|CStr(dest[..])| + 1..]
  {
    var line := NextLine(content[pos..]);
    var n := StrLenOf(dest);
    if limit < n + |line| {
      return pos, false;
    }
    StrCat(dest, line);
    return pos + |line|, true;
  }

  /**
   * The loop itself, on the caller's buffer: `while (fgets(line, 100, f))`,
   * compare `limit` with strlen(dest) + strlen(line), strcat. The caller's
   * buffer must have room for the string the loop ends with and its
   * terminator. The loop writes nothing past that terminator, and nothing
   * past index `limit`.
   */
  method ReadLoop(content: Content, dest: array<char>, limit: int) returns (ok: bool)
    requires NUL in dest[..]
    requires |ReadChunks(CStr(dest[..]), content, limit).dest| < dest.Length
    modifies dest
    ensures NUL in dest[..]
    ensures ReadResult(ok, CStr(dest[..])) == ReadChunks(old(CStr(dest[..])), content, limit)
    ensures forall k :: |CStr(dest[..])| < k < dest.Length ==> dest[k] == old(dest[k])
    ensures forall k :: 0 <= k < dest.Length && limit < k ==> dest[k] == old(dest[k])
  {
    ghost var orig := dest[..];
    ghost var acc: string := CStr(dest[..]);
    ghost var rest: string := content;
    ghost var total := ReadChunks(acc, rest, limit);
    var pos := 0;
    ok := true;
    while pos < |content|
      invariant Reading(dest[..], orig, content, pos, acc, rest, total, limit)
      decreases |content| - pos
    {
      ghost var before := dest[..];
      ghost var line := NextLine(content[pos..]);
      ReadingRoom(before, orig, content, pos, acc, rest, total, limit);
      var next, fits := ReadStep(content, dest, limit, pos);
      ReadingNext(before, dest[..], orig, content, pos, acc, rest, total, limit, next, fits);
      if !fits {
        ok := false;
        break;
      }
      pos, acc, rest := next, acc + line, rest[|line|..];
    }
    ReadFrame(dest[..], orig, |acc|, limit, pos == 0);
  }
}
