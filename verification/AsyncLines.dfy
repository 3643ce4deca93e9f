/** Reading lines through two buffers (aweb/asyncio.c, FGetsLenAsync), on values. */
module AsyncLines {
  import opened Basics
  import opened Packets
  import opened AsyncReading
  import opened AsyncSeeking

  /** Up to and including the first newline, but at most n bytes. */
  function LineOf(s: seq<byte>, n: nat): seq<byte> {
    if n == 0 || s == [] then []
    else if s[0] == NEWLINE then [NEWLINE]
    else [s[0]] + LineOf(s[1..], n - 1)
  }

  predicate NoNewline(s: seq<byte>) { NEWLINE !in s }

  lemma {:induction false} LineBegins(s: seq<byte>, line: seq<byte>, n: nat)
    requires NoNewline(line) && |line| <= n && line <= s
    ensures LineOf(s, n) == line + LineOf(s[|line|..], n - |line|)
  {
    if line == [] {
      assert s[0..] == s;
    } else {
      assert line[1..] <= s[1..] && line[0] in line;
      LineBegins(s[1..], line[1..], n - 1);
      assert s[1..][|line| - 1..] == s[|line|..];
    }
  }

  lemma {:induction false} LineCut(s: seq<byte>, n: nat)
    requires n <= |s|
    ensures LineOf(s[..n], n) == LineOf(s, n)
  {
    if n > 0 && s[0] != NEWLINE {
      assert s[..n][1..] == s[1..][..n - 1];
      LineCut(s[1..], n - 1);
    }
  }

  /** The room FGetsLenAsync takes for a line.  It leaves no place for the terminator when the
      buffer is for one byte, and a seek has left exactly one byte in the next chunk. */
  function Room(v: Link, numBytes: nat): nat
    requires numBytes >= 2
  {
    if numBytes == 2 && v.bytesLeft == 0 && Stock(v) == 1 then 2 else numBytes - 1
  }

  /** Exactly when the terminator has no place. */
  lemma LineFitsExactly(v: Link, numBytes: nat)
    requires Ok(v) && numBytes >= 2
    ensures 0 <= v.At() <= |v.file|
    ensures var rest := v.file[v.At()..];
            |LineOf(rest, Room(v, numBytes))| >= numBytes <==>
              numBytes == 2 && v.seekOffset > 0 && Stock(v) == 1 && |rest| > 1 && rest[0] != NEWLINE
  {
    AtInFile(v);
    var rest := v.file[v.At()..];
    LinePart(rest, rest, Room(v, numBytes));
    if numBytes == 2 && Room(v, 2) == 2 && |rest| > 1 && rest[0] != NEWLINE {
      assert |LineOf(rest[1..], 1)| == 1;
    }
  }

  /** Such a state is reached by a seek to the last byte of a block that fills a buffer. */
  lemma LineOverruns(v: Link, w: Link, target: nat)
    requires Ok(v) && Arrived(v, w) && w.res1 >= 0 && IsFar(w, target)
    requires target % w.size == w.size - 1 && target + 1 < |w.file| && w.file[target] != NEWLINE
    ensures var x := Seek(w, w.size, target);
            && x.Some? && Ok(x.value) && x.value.At() == target
            && |LineOf(w.file[target..], Room(x.value, 2))| == 2
  {
    SeekGoesFar(v, w, w.size, target);
    LastOfBlock(target, w.size);
    OneByteStocked(w, target - (w.size - 1));
    LineFitsExactly(Seek(w, w.size, target).value, 2);
    LineIsShort(w.file[target..], Room(Seek(w, w.size, target).value, 2));
  }

  lemma LastOfBlock(target: nat, size: nat)
    requires 0 < size < 0x8000_0000 && target % size == size - 1
    ensures CDiv(target, size) * size == target - (size - 1) && ULong(target - CDiv(target, size) * size) == size - 1
  {
    assert target == target / size * size + target % size;
    SkipInBlock(target, size);
  }

  lemma OneByteStocked(w: Link, round: nat)
    requires w.size >= 2 && round + w.size < |w.file|
    ensures Stock(Restarted(w, round, w.size - 1)) == 1
  {
  }

  lemma LineIsShort(s: seq<byte>, n: nat)
    ensures |LineOf(s, n)| <= n
  {
    LinePart(s, s, n);
  }

  /** A line was read: what there is of it, unless an error came between. */
  ghost predicate ReadsLine(v: Link, w: Link, numBytes: nat, line: seq<byte>)
    requires numBytes >= 2
  {
    && Moved(v, w, line)
    && var full := LineOf(v.file[v.At()..], Room(v, numBytes));
       line <= full && (line == full || w.Failed())
  }

  lemma {:induction false} LinePart(t: seq<byte>, a: seq<byte>, c: nat)
    requires a <= t
    ensures var part := LineOf(a, c);
            && part <= a && |part| <= c
            && (NoNewline(part) ==> |part| == Min(c, |a|))
            && (!NoNewline(part) ==> part[|part| - 1] == NEWLINE && NoNewline(part[..|part| - 1]))
            && (!NoNewline(part) ==> forall m: nat :: c <= m ==> LineOf(t, m) == part)
  {
    if c > 0 && a != [] && a[0] != NEWLINE {
      LinePart(t[1..], a[1..], c - 1);
      var rest := LineOf(a[1..], c - 1);
      var part := [a[0]] + rest;
      assert LineOf(a, c) == part && part[1..] == rest;
      if rest != [] {
        assert part[..|part| - 1] == [a[0]] + rest[..|rest| - 1];
      }
      forall m: nat | c <= m && !NoNewline(part)
        ensures LineOf(t, m) == part
      {
        assert !NoNewline(rest) && c - 1 <= m - 1;
      }
    }
  }

  /** In the midst of a line, with no newline yet; room for n more bytes. */
  ghost predicate Lining(v: Link, u: Link, numBytes: nat, n: int, line: seq<byte>)
    requires numBytes >= 2
  {
    && Moved(v, u, line) && !u.Stuck() && NoNewline(line)
    && |line| + n == numBytes - 1 && |line| <= Room(v, numBytes)
    && (line == [] ==> u.bytesLeft == v.bytesLeft && Stock(u) == Stock(v))
    && (line != [] ==> u.seekOffset == 0)
    && (n <= 0 ==> if u.bytesLeft > 0 then |line| == Room(v, numBytes)
                   else u.At() == |u.file| || |line| < Room(v, numBytes))
  }

  /** The rest of the line, seen from where the program is. */
  lemma LiningRest(v: Link, u: Link, line: seq<byte>, m: nat)
    requires Moved(v, u, line) && NoNewline(line) && |line| <= m
    ensures LineOf(v.file[v.At()..], m) == line + LineOf(u.file[u.At()..], m - |line|)
  {
    var s := v.file[v.At()..];
    LineBegins(s, line, m);
    assert s[|line|..] == u.file[u.At()..];
  }

  /** One byte was read, or none. */
  lemma LiningReads(v: Link, u: Link, w: Link, numBytes: nat, n: int, line: seq<byte>, r: int, d: seq<byte>)
    requires numBytes >= 2 && Lining(v, u, numBytes, n, line) && u.bytesLeft == 0 && Reads(u, w, 1, r, d)
    ensures r < 1 || d == [NEWLINE] ==> ReadsLine(v, w, numBytes, line + d)
    ensures r == 1 && d != [NEWLINE] ==> Lining(v, w, numBytes, n - 1, line + d) && u.At() < w.At()
  {
    var R := Room(v, numBytes);
    var t := u.file[u.At()..];
    MovedOn(v, u, w, line, d);
    LiningRest(v, u, line, R);
    if r < 1 {
      assert d == [] && line + d == line;
      if r == 0 {
        assert t == [];
      }
    } else {
      assert d == [d[0]] && d[0] == t[0];
      assert |line| < R;
    }
  }

  lemma UnreadBeginsRest(u: Link)
    requires Ok(u)
    ensures 0 <= u.At() <= |u.file| && Unread(u, u.bytesLeft) <= u.file[u.At()..]
  {
    UnreadIsNext(u, u.bytesLeft);
  }

  lemma UnreadTake(u: Link, k: nat)
    requires Ok(u) && k <= u.bytesLeft
    ensures Unread(u, k) == Unread(u, u.bytesLeft)[..k]
  {
  }

  /** As much as fits is taken from the buffer, up to a newline. */
  function Count(u: Link, n: int): nat {
    if n <= 0 then 0 else Min(n, u.bytesLeft)
  }

  /** A line without its end, and then as much as there is. */
  lemma LineGrows(s: seq<byte>, line: seq<byte>, a: seq<byte>, c: nat, m: nat)
    requires line <= s && a <= s[|line|..] && NoNewline(line) && c <= |a| && |line| + c <= m
    ensures var d := LineOf(a, c);
            && d <= a
            && (if NoNewline(d) then |d| == c && line + d <= LineOf(s, m) && (|line| + c == m ==> line + d == LineOf(s, m))
                else line + d == LineOf(s, m))
  {
    var t, d := s[|line|..], LineOf(a, c);
    LinePart(t, a, c);
    if NoNewline(d) {
      assert s == line + t;
      LineBegins(s, line + d, m);
    } else {
      LineBegins(s, line, m);
    }
  }

  lemma LineTaken(v: Link, u: Link, line: seq<byte>, c: nat, m: nat)
    requires Moved(v, u, line) && NoNewline(line) && !u.Stuck() && c <= u.bytesLeft && |line| + c <= m
    ensures var d := LineOf(Unread(u, u.bytesLeft), c);
            var full := LineOf(v.file[v.At()..], m);
            && |d| <= u.bytesLeft && d == Unread(u, |d|) && Moved(v, Taken(u, |d|), line + d)
            && (if NoNewline(d) then |d| == c && line + d <= full && (|line| + c == m ==> line + d == full)
                else line + d == full)
  {
    var a, s := Unread(u, u.bytesLeft), v.file[v.At()..];
    var d := LineOf(a, c);
    UnreadBeginsRest(u);
    assert u.file[u.At()..] == s[|line|..];
    LineGrows(s, line, a, c, m);
    UnreadTake(u, |d|);
    TakenMoves(u, |d|);
    MovedOn(v, u, Taken(u, |d|), line, d);
  }

  lemma LiningTakesSome(v: Link, u: Link, numBytes: nat, n: int, line: seq<byte>, d: seq<byte>)
    requires numBytes >= 2 && Lining(v, u, numBytes, n, line) && u.bytesLeft > 0
    requires d == LineOf(Unread(u, u.bytesLeft), Count(u, n)) && |d| < n && NoNewline(d) && |d| <= u.bytesLeft
    ensures Lining(v, Taken(u, |d|), numBytes, n - |d|, line + d) && u.bytesLeft == |d|
  {
    LineTaken(v, u, line, Count(u, n), Room(v, numBytes));
  }

  lemma LiningTakesAll(v: Link, u: Link, numBytes: nat, n: int, line: seq<byte>, d: seq<byte>)
    requires numBytes >= 2 && Lining(v, u, numBytes, n, line) && u.bytesLeft > 0
    requires d == LineOf(Unread(u, u.bytesLeft), Count(u, n)) && (|d| >= n || !NoNewline(d)) && |d| <= u.bytesLeft
    ensures ReadsLine(v, Taken(u, |d|), numBytes, line + d)
  {
    LineTaken(v, u, line, Count(u, n), Room(v, numBytes));
  }

  lemma LiningTakes(v: Link, u: Link, numBytes: nat, n: int, line: seq<byte>, d: seq<byte>)
    requires numBytes >= 2 && Lining(v, u, numBytes, n, line) && u.bytesLeft > 0
    requires d == LineOf(Unread(u, u.bytesLeft), Count(u, n))
    ensures |d| <= u.bytesLeft && d == Unread(u, |d|)
    ensures |d| < n ==> d != []
    ensures if |d| >= n || d[|d| - 1] == NEWLINE then ReadsLine(v, Taken(u, |d|), numBytes, line + d)
            else Lining(v, Taken(u, |d|), numBytes, n - |d|, line + d) && u.bytesLeft == |d|
  {
    UnreadBeginsRest(u);
    LinePart(Unread(u, u.bytesLeft), Unread(u, u.bytesLeft), Count(u, n));
    UnreadTake(u, |d|);
    if |d| < n && NoNewline(d) {
      LiningTakesSome(v, u, numBytes, n, line, d);
    } else {
      LiningTakesAll(v, u, numBytes, n, line, d);
    }
  }
}
