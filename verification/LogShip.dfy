/** The access-log tailer (logship.go). Bytes are characters; what a line parses to
    is a parameter. */
module LogShip {
  import opened Text
  import opened Bounded

  const NL := '\n'

  predicate HasNL(s: string) {
    exists i :: 0 <= i < |s| && s[i] == NL
  }

  /** The text before the first line end, all of it when there is none. */
  function FirstLine(s: string): (l: string)
    ensures |l| <= |s| && l == s[..|l|] && !HasNL(l)
    ensures |l| < |s| ==> s[|l|] == NL
  {
    if s == "" || s[0] == NL then "" else [s[0]] + FirstLine(s[1..])
  }

  /** All pieces between line ends, the last one included. */
  function Split(s: string): seq<string> {
    var l := FirstLine(s);
    if |l| == |s| then [s] else [l] + Split(s[|l| + 1..])
  }

  /** The complete lines of a text. */
  function Lines(s: string): seq<string> {
    var l := FirstLine(s);
    if |l| == |s| then [] else [l] + Lines(s[|l| + 1..])
  }

  /** Length of the text up to and including its last line end. */
  function Complete(s: string): (n: nat)
    ensures n <= |s| && (n > 0 ==> s[n - 1] == NL) && forall i :: n <= i < |s| ==> s[i] != NL
  {
    if s == "" then 0 else if s[|s| - 1] == NL then |s| else Complete(s[..|s| - 1])
  }

  lemma {:induction false} SplitIsLines(s: string)
    ensures Split(s) == Lines(s + [NL])
  {
    hide FirstLine, Lines;
    FirstLineOf(s, [NL]);
    LinesHead(s + [NL]);
    LinesHead("");
    var l := FirstLine(s);
    if |l| < |s| {
      assert (s + [NL])[|l| + 1..] == s[|l| + 1..] + [NL];
      SplitIsLines(s[|l| + 1..]);
    } else {
      assert l == s && (s + [NL])[|l| + 1..] == "";
    }
  }

  /** More text does not change a first line that is followed by a line end. */
  lemma {:induction false} FirstLineOf(a: string, b: string)
    ensures |FirstLine(a)| < |a| ==> FirstLine(a + b) == FirstLine(a)
    ensures |FirstLine(a)| == |a| && b != "" && b[0] == NL ==> FirstLine(a + b) == a
  {
    if a == "" {
      assert a + b == b;
    } else if a[0] == NL {
    } else {
      assert (a + b)[1..] == a[1..] + b;
      FirstLineOf(a[1..], b);
    }
  }

  predicate WholeLines(s: string) {
    s == "" || s[|s| - 1] == NL
  }

  lemma LinesHead(s: string)
    ensures var l := FirstLine(s); Lines(s) == if |l| == |s| then [] else [l] + Lines(s[|l| + 1..])
  {
  }

  /** The first line of whole lines, with anything after them. */
  lemma HeadOfWhole(a: string, b: string)
    requires WholeLines(a) && a != ""
    ensures var l := FirstLine(a);
            |l| < |a| && FirstLine(a + b) == l && (a + b)[|l| + 1..] == a[|l| + 1..] + b && WholeLines(a[|l| + 1..])
  {
    FirstLineOf(a, b);
  }

  lemma {:induction false} LinesConcat(a: string, b: string)
    requires WholeLines(a)
    ensures Lines(a + b) == Lines(a) + Lines(b)
    decreases |a|
  {
    hide FirstLine, Lines, WholeLines;
    if a == "" {
      assert a + b == b;
      LinesHead(a);
    } else {
      HeadOfWhole(a, b);
      LinesHead(a);
      LinesHead(a + b);
      LinesConcat(a[|FirstLine(a)| + 1..], b);
      assert [FirstLine(a)] + (Lines(a[|FirstLine(a)| + 1..]) + Lines(b)) == ([FirstLine(a)] + Lines(a[|FirstLine(a)| + 1..])) + Lines(b);
    }
  }

  lemma {:induction false} NoLines(s: string)
    requires forall i :: 0 <= i < |s| ==> s[i] != NL
    ensures Lines(s) == []
  {
  }

  lemma {:induction false} CompleteIs(s: string, n: nat)
    requires n <= |s| && (n > 0 ==> s[n - 1] == NL) && forall i :: n <= i < |s| ==> s[i] != NL
    ensures Complete(s) == n
  {
    if n == |s| {
    } else {
      CompleteIs(s[..|s| - 1], n);
    }
  }

  lemma WholePrefix(s: string)
    ensures WholeLines(s[..Complete(s)])
  {
  }

  /** What follows position n within the complete part of a longer text. */
  lemma {:induction false} CompleteSuffix(s: string, n: nat)
    requires n <= |s| && WholeLines(s[..n])
    ensures Complete(s) == n + Complete(s[n..])
  {
    if n == |s| {
      assert s[..n] == s && s[n..] == "";
    } else {
      var front := s[..|s| - 1];
      assert front[..n] == s[..n] && s[n..][..|s| - n - 1] == front[n..];
      CompleteSuffix(front, n);
    }
  }

  // ---------- entries ----------

  /** The entry of one line: blank lines, lines that are no JSON object and lines
      that do not parse have none. */
  function EntryOf<E>(parse: string -> Option<E>, line: string): Option<E> {
    var l := TrimSpace(line);
    if l == "" || l[0] != '{' then None else parse(l)
  }

  function Entries<E>(parse: string -> Option<E>, lines: seq<string>): seq<E> {
    if lines == [] then []
    else
      var e := EntryOf(parse, lines[|lines| - 1]);
      Entries(parse, lines[..|lines| - 1]) + if e.Some? then [e.value] else []
  }

  lemma {:induction false} EntriesConcat<E>(parse: string -> Option<E>, a: seq<string>, b: seq<string>)
    ensures Entries(parse, a + b) == Entries(parse, a) + Entries(parse, b)
  {
    if b == [] {
      assert a + b == a;
    } else {
      assert (a + b)[..|a + b| - 1] == a + b[..|b| - 1];
      EntriesConcat(parse, a, b[..|b| - 1]);
    }
  }

  // ---------- the shipper ----------

  const MAX_BUFFERED: nat := 10000

  datatype Tail<E> = Tail(offset: nat, started: bool, buf: seq<E>)

  /** One poll of a file with the given contents. */
  function Polled<E>(t: Tail<E>, parse: string -> Option<E>, file: string): Tail<E> {
    var offset := if |file| < t.offset then 0 else t.offset;
    if !t.started then Tail(|file|, true, t.buf)
    else
      var data := file[offset..];
      var n := Complete(data);
      Tail(offset + n, true, Newest(MAX_BUFFERED, t.buf + Entries(parse, Lines(data[..n]))))
  }

  class Shipper<E> {
    const parse: string -> Option<E>
    var buf: seq<E>
    var offset: nat
    var started: bool

    constructor (parse: string -> Option<E>)
      ensures this.parse == parse && State() == Tail(0, false, [])
    {
      this.parse := parse;
      buf, offset, started := [], 0, false;
    }

    function State(): Tail<E>
      reads this
    {
      Tail(offset, started, buf)
    }

    method HandleLines(lines: seq<string>)
      requires |buf| <= MAX_BUFFERED
      modifies this`buf
      ensures buf == Newest(MAX_BUFFERED, old(buf) + Entries(parse, lines))
    {
      hide EntryOf, Entries, TrimSpace, Newest;
      ghost var was := buf;
      NewestIs(MAX_BUFFERED, was);
      NoEntries(parse);
      assert was + [] == was && lines[..0] == [];
      for k := 0 to |lines|
        invariant buf == Newest(MAX_BUFFERED, was + Entries(parse, lines[..k]))
      {
        EntriesSnoc(parse, lines, k);
        ghost var before := was + Entries(parse, lines[..k]);
        var line := TrimSpace(lines[k]);
        var e := if line == "" || line[0] != '{' then None else parse(line);
        assert e == EntryOf(parse, lines[k]) by { EntryIs(parse, lines[k]); }
        if e.Some? {
          NewestConcat(MAX_BUFFERED, before, [e.value]);
          NewestIs(MAX_BUFFERED, buf + [e.value]);
          assert was + Entries(parse, lines[..k + 1]) == before + [e.value];
          buf := buf + [e.value];
          if |buf| > MAX_BUFFERED {
            buf := buf[|buf| - MAX_BUFFERED..];
          }
        } else {
          assert was + Entries(parse, lines[..k + 1]) == before;
        }
      }
      assert lines[..|lines|] == lines;
    }

    /** No file, no change. */
    method ReadNew(file: Option<string>)
      requires |buf| <= MAX_BUFFERED
      modifies this`buf, this`offset, this`started
      ensures |buf| <= MAX_BUFFERED
      ensures file.None? ==> State() == old(State())
      ensures file.Some? ==> State() == Polled(old(State()), parse, file.value)
    {
      hide Lines, Split, Entries, Complete, Newest;
      if file.None? {
        return;
      }
      var size := |file.value|;
      if size < offset {
        offset := 0;
      }
      if !started {
        offset := size;
        started := true;
        return;
      }
      NothingRead(parse, buf);
      if size == offset {
        assert file.value[offset..] == "";
        return;
      }
      var data := file.value[offset..];
      var last := |data| - 1;
      while last >= 0 && data[last] != NL
        invariant -1 <= last < |data|
        invariant forall i :: last < i < |data| ==> data[i] != NL
      {
        last := last - 1;
      }
      CompleteIs(data, last + 1);
      if last < 0 {
        assert data[..0] == "";
        return;
      }
      SplitIsLines(data[..last]);
      assert data[..last] + [NL] == data[..last + 1];
      HandleLines(Split(data[..last]));
      offset := offset + last + 1;
    }

    /** Keeps the buffer only when shipping failed. */
    method Flush(marshalled: bool, shipped: bool)
      modifies this`buf
      ensures buf == if marshalled && !shipped then old(buf) else []
    {
      if |buf| == 0 {
        return;
      }
      if marshalled && !shipped {
        return;
      }
      buf := [];
    }
  }

  lemma EntryIs<E>(parse: string -> Option<E>, line: string)
    ensures EntryOf(parse, line) == var l := TrimSpace(line); if l == "" || l[0] != '{' then None else parse(l)
  {
  }

  lemma NothingRead<E>(parse: string -> Option<E>, buf: seq<E>)
    requires |buf| <= MAX_BUFFERED
    ensures Complete("") == 0 && ""[..0] == "" && Newest(MAX_BUFFERED, buf + Entries(parse, Lines(""))) == buf
  {
    NoLines("");
    assert buf + [] == buf;
  }

  lemma NoEntries<E>(parse: string -> Option<E>)
    ensures Entries(parse, []) == []
  {
  }

  lemma EntriesSnoc<E>(parse: string -> Option<E>, lines: seq<string>, k: nat)
    requires k < |lines|
    ensures var e := EntryOf(parse, lines[k]);
            Entries(parse, lines[..k + 1]) == Entries(parse, lines[..k]) + if e.Some? then [e.value] else []
  {
    assert lines[..k + 1][..k] == lines[..k];
  }

  // ---------- any schedule of polls over an append-only log ----------

  /** A poll that finds the first size bytes of the log written, or the end of a
      flush. */
  datatype Event = Poll(size: nat) | Flushed | FlushFailed

  /** The tailer after some events, where it started and where the last successful
      flush left it. */
  datatype Run<E> = Run(tail: Tail<E>, start: nat, cut: nat)

  function After<E>(parse: string -> Option<E>, log: string, evs: seq<Event>): Run<E> {
    if evs == [] then Run(Tail(0, false, []), 0, 0)
    else
      var r := After(parse, log, evs[..|evs| - 1]);
      match evs[|evs| - 1]
      case Poll(size) =>
        var t := Polled(r.tail, parse, if size <= |log| then log[..size] else log);
        if r.tail.started then r.(tail := t) else Run(t, t.offset, t.offset)
      case Flushed => if r.tail.started then r.(tail := r.tail.(buf := []), cut := r.tail.offset) else r
      case FlushFailed => r
  }

  function LastSize(evs: seq<Event>): nat {
    if evs == [] then 0 else if evs[|evs| - 1].Poll? then evs[|evs| - 1].size else LastSize(evs[..|evs| - 1])
  }

  /** Later polls find at least as much. */
  ghost predicate Growing(log: string, evs: seq<Event>) {
    evs == [] ||
    (Growing(log, evs[..|evs| - 1])
     && (evs[|evs| - 1].Poll? ==> LastSize(evs[..|evs| - 1]) <= evs[|evs| - 1].size <= |log|))
  }

  /** Chunk independence. However the polls cut the log, the tailer has handled it up
      to the last line end the latest poll found, and its buffer is the newest
      entries of one split of what was handled since the last successful flush. */
  ghost predicate Caught<E>(parse: string -> Option<E>, log: string, size: nat, r: Run<E>) {
    size <= |log| && r.start <= r.cut <= r.tail.offset <= size
    && r.tail.offset == r.start + Complete(log[r.start..size])
    && WholeLines(log[r.start..r.cut])
    && r.tail.buf == Newest(MAX_BUFFERED, Entries(parse, Lines(log[r.cut..r.tail.offset])))
  }

  lemma {:induction false} ChunkIndependent<E>(parse: string -> Option<E>, log: string, evs: seq<Event>)
    requires Growing(log, evs)
    ensures var r := After(parse, log, evs);
            if r.tail.started then Caught(parse, log, LastSize(evs), r) else r == Run(Tail(0, false, []), 0, 0)
    ensures LastSize(evs) <= |log|
  {
    if evs == [] {
    } else {
      var before, e := evs[..|evs| - 1], evs[|evs| - 1];
      ChunkIndependent(parse, log, before);
      hide Caught, Polled, Lines, Complete;
      var r := After(parse, log, before);
      match e
      case Poll(size) =>
        if r.tail.started {
          PollCatchesUp(parse, log, LastSize(before), size, r);
        } else {
          FirstPoll(parse, log, size, r);
        }
      case Flushed => if r.tail.started { FlushedCatches(parse, log, LastSize(before), r); }
      case FlushFailed =>
    }
  }

  lemma FirstPoll<E>(parse: string -> Option<E>, log: string, size: nat, r: Run<E>)
    requires size <= |log| && r.tail == Tail(0, false, [])
    ensures var t := Polled(r.tail, parse, log[..size]); t.started && Caught(parse, log, size, Run(t, t.offset, t.offset))
  {
    NoLines("");
    assert log[size..size] == "";
  }

  lemma FlushedCatches<E>(parse: string -> Option<E>, log: string, size: nat, r: Run<E>)
    requires Caught(parse, log, size, r)
    ensures Caught(parse, log, size, r.(tail := r.tail.(buf := []), cut := r.tail.offset))
  {
    hide Lines, Entries, Complete, WholeLines;
    var s := log[r.start..size];
    assert log[r.start..r.tail.offset] == s[..Complete(s)];
    WholePrefix(s);
    NoLines("");
    NoEntries(parse);
    assert log[r.tail.offset..r.tail.offset] == "";
  }

  lemma PollCatchesUp<E>(parse: string -> Option<E>, log: string, before: nat, size: nat, r: Run<E>)
    requires Caught(parse, log, before, r) && before <= size <= |log| && r.tail.started
    ensures var t := Polled(r.tail, parse, log[..size]); t.started && Caught(parse, log, size, r.(tail := t))
  {
    hide Lines, Entries, Complete, WholeLines, Newest;
    var off := r.tail.offset;
    var data := log[..size][off..];
    OffsetCatches(log, r.start, off, before, size);
    HandledWhole(log, r.start, r.cut, off, before);
    Pieces(log, r.cut, off, size, Complete(data));
    BufferCatches(parse, log[r.cut..off], data[..Complete(data)], r.tail.buf);
  }

  lemma OffsetCatches(log: string, start: nat, off: nat, before: nat, size: nat)
    requires start <= off <= before <= size <= |log| && off == start + Complete(log[start..before])
    ensures off + Complete(log[..size][off..]) == start + Complete(log[start..size])
  {
    hide Complete, WholeLines;
    var s, seen := log[start..size], log[start..before];
    assert s[..off - start] == seen[..off - start];
    WholePrefix(seen);
    CompleteSuffix(s, off - start);
    assert log[..size][off..] == s[off - start..];
  }

  lemma HandledWhole(log: string, start: nat, cut: nat, off: nat, before: nat)
    requires start <= cut <= off <= before <= |log| && off == start + Complete(log[start..before])
    ensures WholeLines(log[cut..off])
  {
    hide Complete, WholeLines;
    var seen := log[start..before];
    WholePrefix(seen);
    SuffixWhole(seen[..off - start], cut - start);
    assert seen[..off - start] == log[start..off];
    assert log[start..off][cut - start..] == log[cut..off];
  }

  lemma Pieces(log: string, cut: nat, off: nat, size: nat, n: nat)
    requires cut <= off && off + n <= size <= |log|
    ensures log[cut..off] + log[..size][off..][..n] == log[cut..off + n]
  {
  }

  lemma BufferCatches<E>(parse: string -> Option<E>, a: string, b: string, buf: seq<E>)
    requires WholeLines(a) && buf == Newest(MAX_BUFFERED, Entries(parse, Lines(a)))
    ensures Newest(MAX_BUFFERED, buf + Entries(parse, Lines(b))) == Newest(MAX_BUFFERED, Entries(parse, Lines(a + b)))
  {
    hide Lines, Entries, WholeLines, Newest;
    LinesConcat(a, b);
    EntriesConcat(parse, Lines(a), Lines(b));
    NewestConcat(MAX_BUFFERED, Entries(parse, Lines(a)), Entries(parse, Lines(b)));
  }

  lemma SuffixWhole(s: string, n: nat)
    requires WholeLines(s) && n <= |s|
    ensures WholeLines(s[n..])
  {
  }

  // ---------- the first poll ----------

  function Total(lines: seq<string>): nat {
    if lines == [] then 0 else |lines[0]| + 1 + Total(lines[1..])
  }

  lemma {:induction false} TotalConcat(a: seq<string>, b: seq<string>)
    ensures Total(a + b) == Total(a) + Total(b)
    decreases |a|
  {
    if a == [] {
      assert a + b == b;
    } else {
      assert (a + b)[1..] == a[1..] + b;
      TotalConcat(a[1..], b);
    }
  }

  lemma {:induction false} TotalIsComplete(s: string)
    ensures Total(Lines(s)) == Complete(s)
  {
    var l := FirstLine(s);
    if |l| == |s| {
      CompleteIs(s, 0);
    } else {
      assert s[..|l| + 1][|l|] == NL;
      CompleteSuffix(s, |l| + 1);
      TotalIsComplete(s[|l| + 1..]);
      assert Lines(s)[1..] == Lines(s[|l| + 1..]);
    }
  }

  lemma CleanSplitIff(log: string, start: nat, end: nat)
    requires start <= end <= |log| && WholeLines(log[..end])
    ensures Lines(log[..end]) == Lines(log[..start]) + Lines(log[start..end]) <==> WholeLines(log[..start])
  {
    hide *;
    var a, b := log[..start], log[start..end];
    assert log[..end] == a + b;
    WholeIffComplete(a);
    WholeIffComplete(log[..end]);
    if WholeLines(a) {
      LinesConcat(a, b);
    } else {
      TotalIsComplete(log[..end]);
      TotalIsComplete(a);
      TotalIsComplete(b);
      TotalConcat(Lines(a), Lines(b));
      CompleteAtMost(b);
    }
  }

  /** The lines a run has handled are lines of the log exactly when the first poll
      found the log ending with a line end, or no line end was written since up to the
      last poll; otherwise the first one handled is the rest of a line that was being
      written. */
  lemma FirstPollCleanIff<E>(parse: string -> Option<E>, log: string, evs: seq<Event>)
    requires Growing(log, evs) && After(parse, log, evs).tail.started
    ensures var r := After(parse, log, evs);
            r.start <= r.tail.offset <= LastSize(evs) <= |log|
            && (Lines(log[..r.tail.offset]) == Lines(log[..r.start]) + Lines(log[r.start..r.tail.offset])
                <==> WholeLines(log[..r.start]) || forall i :: r.start <= i < LastSize(evs) ==> log[i] != NL)
  {
    ChunkIndependent(parse, log, evs);
    var r := After(parse, log, evs);
    NoneComplete(log, r.start, LastSize(evs));
    hide After, Lines, Complete, Growing;
    if r.start == r.tail.offset {
      NoLines("");
      assert log[r.start..r.tail.offset] == "";
    } else {
      OffsetWhole(log, r.start, r.tail.offset, LastSize(evs));
      CleanSplitIff(log, r.start, r.tail.offset);
    }
  }

  lemma NoneComplete(log: string, start: nat, size: nat)
    requires start <= size <= |log|
    ensures Complete(log[start..size]) == 0 <==> forall i :: start <= i < size ==> log[i] != NL
  {
    var s := log[start..size];
    assert forall i :: start <= i < size ==> log[i] == s[i - start];
    if forall i :: start <= i < size ==> log[i] != NL {
      CompleteIs(s, 0);
    }
    if Complete(s) == 0 {
      forall i | start <= i < size ensures log[i] != NL { assert s[i - start] == log[i]; }
    }
  }

  lemma OffsetWhole(log: string, start: nat, off: nat, size: nat)
    requires start < off <= size <= |log| && off == start + Complete(log[start..size])
    ensures WholeLines(log[..off])
  {
    var n := Complete(log[start..size]);
    assert log[start..size][n - 1] == log[off - 1];
  }

  /** The first poll finds "a", the second "ab" and a line end: the line handled is
      "b", and the log's only line is "ab". */
  lemma FirstPollInsideLine(parse: string -> Option<string>)
    ensures var log, evs := ['a', 'b', NL], [Poll(1), Poll(3)];
            var r := After(parse, log, evs);
            Growing(log, evs) && r.start == 1 && r.tail.offset == 3 && Lines(log[1..3]) == ["b"] && Lines(log) == ["ab"]
  {
    var log: string, evs := ['a', 'b', NL], [Poll(1), Poll(3)];
    assert evs[..1] == [Poll(1)] && [Poll(1)][..0] == [];
    assert log[..3] == log && log[1..] == ['b', NL] == log[1..3];
    var none: string := "";
    assert FirstLine(none) == "" && log[3..] == none;
    assert FirstLine(log[1..][1..]) == none by { assert log[1..][1..] == [NL]; }
    assert FirstLine(log[1..]) == ['b'] + none == "b" == FirstLine(log[1..3]);
    assert FirstLine(log) == ['a'] + "b" == "ab";
    assert log[1..3][2..] == none;
    assert Lines("") == [];
    assert Complete(log[1..]) == 2;
    hide Lines, Complete, Entries, Newest, FirstLine;
    assert After(parse, log, evs[..1]) == Run(Tail(1, true, []), 1, 1);
    assert Growing(log, evs[..0]) && Growing(log, evs[..1]);
  }

  lemma WholeIffComplete(s: string)
    ensures WholeLines(s) <==> Complete(s) == |s|
  {
  }

  lemma CompleteAtMost(s: string)
    ensures Complete(s) <= |s|
  {
  }

  // ---------- truncation ----------

  /** A file found shorter than what was read of it has been replaced: everything
      written to the new one is handled, from its first line on, by this and all later
      polls. After a flush the tailer is as if it had followed the new file from its
      beginning. */
  lemma ReplacedFileFromStart<E>(parse: string -> Option<E>, log: string, size: nat, t: Tail<E>)
    requires t.started && size <= |log| && size < t.offset && t.buf == []
    ensures var t' := Polled(t, parse, log[..size]);
            t'.started && t'.offset == Complete(log[..size]) && t'.buf == Newest(MAX_BUFFERED, Entries(parse, Lines(log[..t'.offset])))
            && Caught(parse, log, size, Run(t', 0, 0))
  {
    hide Lines, Entries, Newest;
    var n := Complete(log[..size]);
    assert log[..size][0..] == log[..size] && log[0..size] == log[..size] && log[..size][..n] == log[..n] && log[0..n] == log[..n];
    assert log[0..0] == "";
    var none: seq<E> := [];
    assert none + Entries(parse, Lines(log[..n])) == Entries(parse, Lines(log[..n]));
  }

  lemma {:induction false} LaterPollsCatchUp<E>(parse: string -> Option<E>, log: string, sizes: seq<nat>, size: nat, r: Run<E>)
    requires Caught(parse, log, size, r) && r.tail.started
    requires forall i :: 0 <= i < |sizes| ==> size <= sizes[i] <= |log|
    requires forall i, j :: 0 <= i < j < |sizes| ==> sizes[i] <= sizes[j]
    ensures Caught(parse, log, if sizes == [] then size else sizes[|sizes| - 1], r.(tail := PollsOf(r.tail, parse, log, sizes)))
    ensures PollsOf(r.tail, parse, log, sizes).started
  {
    hide Caught, Polled;
    if sizes == [] {
    } else {
      var n := |sizes| - 1;
      LaterPollsCatchUp(parse, log, sizes[..n], size, r);
      var before := if n == 0 then size else sizes[n - 1];
      PollCatchesUp(parse, log, before, sizes[n], r.(tail := PollsOf(r.tail, parse, log, sizes[..n])));
    }
  }

  /** Polls that find so much of the log each. */
  function PollsOf<E>(t: Tail<E>, parse: string -> Option<E>, log: string, sizes: seq<nat>): Tail<E> {
    if sizes == [] then t
    else
      var size := sizes[|sizes| - 1];
      Polled(PollsOf(t, parse, log, sizes[..|sizes| - 1]), parse, if size <= |log| then log[..size] else log)
  }

  /** So a replaced file is read like any other, however later polls cut it. */
  lemma ReplacedFileChunkIndependent<E>(parse: string -> Option<E>, log: string, size: nat, t: Tail<E>, sizes: seq<nat>)
    requires t.started && size <= |log| && size < t.offset && t.buf == []
    requires forall i :: 0 <= i < |sizes| ==> size <= sizes[i] <= |log|
    requires forall i, j :: 0 <= i < j < |sizes| ==> sizes[i] <= sizes[j]
    ensures var end := PollsOf(Polled(t, parse, log[..size]), parse, log, sizes);
            var last := if sizes == [] then size else sizes[|sizes| - 1];
            end.offset == Complete(log[..last]) && end.buf == Newest(MAX_BUFFERED, Entries(parse, Lines(log[..end.offset])))
  {
    hide Polled, Lines, Entries, Newest, Complete;
    ReplacedFileFromStart(parse, log, size, t);
    var t' := Polled(t, parse, log[..size]);
    LaterPollsCatchUp(parse, log, sizes, size, Run(t', 0, 0));
    var end := PollsOf(t', parse, log, sizes);
    var last := if sizes == [] then size else sizes[|sizes| - 1];
    assert log[0..last] == log[..last] && log[0..end.offset] == log[..end.offset];
  }

  // ---------- lines ----------

  /** Only lines that hold a JSON object count, and blanks around it do not matter. */
  lemma OnlyObjectsCount<E>(parse: string -> Option<E>, line: string)
    ensures Entries(parse, [line]) != [] ==> TrimSpace(line) != "" && TrimSpace(line)[0] == '{'
    ensures TrimSpace(line) != "" && TrimSpace(line)[0] == '{' ==>
              Entries(parse, [line]) == if parse(TrimSpace(line)).Some? then [parse(TrimSpace(line)).value] else []
  {
    hide TrimSpace;
    assert [line][..0] == [];
    NoEntries(parse);
  }
}
