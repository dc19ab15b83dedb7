/** Newline framing of a TCP stream that is read piece by piece into one reused buffer. */
module TcpFraming {

  newtype Byte = x: int | 0 <= x < 256

  const NEWLINE: Byte := 10
  const BUFFER_SIZE := 4096

  /** One more byte: a newline opens a new piece, anything else extends the last one. */
  function Extend(pieces: seq<seq<Byte>>, c: Byte): (longer: seq<seq<Byte>>)
    requires pieces != []
    ensures longer != []
  {
    if c == NEWLINE then pieces + [[]]
    else pieces[..|pieces| - 1] + [pieces[|pieces| - 1] + [c]]
  }

  /** The pieces between newlines, the last one possibly empty or unterminated. */
  function Pieces(s: seq<Byte>): (pieces: seq<seq<Byte>>)
    ensures pieces != []
  {
    if s == [] then [[]] else Extend(Pieces(s[..|s| - 1]), s[|s| - 1])
  }

  function NonEmpty(pieces: seq<seq<Byte>>): seq<seq<Byte>> {
    if pieces == [] then []
    else
      var last := pieces[|pieces| - 1];
      NonEmpty(pieces[..|pieces| - 1]) + if last == [] then [] else [last]
  }

  /** The nonempty lines of a stream. */
  function Lines(s: seq<Byte>): seq<seq<Byte>> {
    NonEmpty(Pieces(s))
  }

  function Join(pieces: seq<seq<Byte>>): seq<Byte>
    requires pieces != []
  {
    if |pieces| == 1 then pieces[0]
    else Join(pieces[..|pieces| - 1]) + [NEWLINE] + pieces[|pieces| - 1]
  }

  /** Joining with one more piece at the end. */
  lemma JoinLast(front: seq<seq<Byte>>, last: seq<Byte>)
    ensures Join(front + [last]) == if front == [] then last else Join(front) + [NEWLINE] + last
  {
    assert (front + [last])[..|front|] == front;
  }

  lemma JoinExtendLast(front: seq<seq<Byte>>, last: seq<Byte>, c: Byte)
    ensures Join(front + [last + [c]]) == Join(front + [last]) + [c]
  {
    JoinLast(front, last);
    JoinLast(front, last + [c]);
    if front != [] {
      assert Join(front) + [NEWLINE] + (last + [c]) == Join(front) + [NEWLINE] + last + [c];
    }
  }

  lemma JoinNewline(pieces: seq<seq<Byte>>)
    requires pieces != []
    ensures Join(pieces + [[]]) == Join(pieces) + [NEWLINE]
  {
    JoinLast(pieces, []);
    assert Join(pieces) + [NEWLINE] + [] == Join(pieces) + [NEWLINE];
  }

  lemma JoinExtend(pieces: seq<seq<Byte>>, c: Byte)
    requires pieces != []
    ensures Join(Extend(pieces, c)) == Join(pieces) + [c]
  {
    if c == NEWLINE {
      JoinNewline(pieces);
    } else {
      var front, last := pieces[..|pieces| - 1], pieces[|pieces| - 1];
      assert front + [last] == pieces;
      JoinExtendLast(front, last, c);
    }
  }

  lemma {:induction false} PiecesJoin(s: seq<Byte>)
    ensures Join(Pieces(s)) == s
  {
    if s != [] {
      var init, c := s[..|s| - 1], s[|s| - 1];
      PiecesJoin(init);
      JoinExtend(Pieces(init), c);
      assert init + [c] == s;
    }
  }

  ghost predicate NoNewlines(pieces: seq<seq<Byte>>) {
    forall i :: 0 <= i < |pieces| ==> NEWLINE !in pieces[i]
  }

  lemma ExtendNoNewlines(pieces: seq<seq<Byte>>, c: Byte)
    requires pieces != [] && NoNewlines(pieces)
    ensures NoNewlines(Extend(pieces, c))
  {
    var last := pieces[|pieces| - 1];
    assert c != NEWLINE ==> NEWLINE !in last + [c];
  }

  lemma {:induction false} PiecesHoldNoNewline(s: seq<Byte>)
    ensures NoNewlines(Pieces(s))
  {
    if s != [] {
      PiecesHoldNoNewline(s[..|s| - 1]);
      ExtendNoNewlines(Pieces(s[..|s| - 1]), s[|s| - 1]);
    }
  }

  /** Splitting loses nothing: the pieces hold no newline, and joining them gives the stream back. */
  lemma PiecesExact(s: seq<Byte>)
    ensures Join(Pieces(s)) == s
    ensures forall i :: 0 <= i < |Pieces(s)| ==> NEWLINE !in Pieces(s)[i]
  {
    PiecesJoin(s);
    PiecesHoldNoNewline(s);
  }

  // Cutting a stream in two.

  /** The two streams joined: the last piece of the first runs on into the first of the second. */
  function Glue(a: seq<seq<Byte>>, b: seq<seq<Byte>>): (glued: seq<seq<Byte>>)
    requires a != [] && b != []
    ensures glued != []
  {
    a[..|a| - 1] + [a[|a| - 1] + b[0]] + b[1..]
  }

  lemma GlueExtend(a: seq<seq<Byte>>, b: seq<seq<Byte>>, c: Byte)
    requires a != [] && b != []
    ensures Glue(a, Extend(b, c)) == Extend(Glue(a, b), c)
  {
    if |b| == 1 {
      assert a[|a| - 1] + (b[0] + [c]) == (a[|a| - 1] + b[0]) + [c];
    }
  }

  lemma GlueNothing(a: seq<seq<Byte>>)
    requires a != []
    ensures Glue(a, [[]]) == a
  {
    assert a[|a| - 1] + [] == a[|a| - 1];
  }

  lemma {:induction false} PiecesGlue(a: seq<Byte>, b: seq<Byte>)
    ensures Pieces(a + b) == Glue(Pieces(a), Pieces(b))
  {
    if b == [] {
      assert a + b == a;
      GlueNothing(Pieces(a));
    } else {
      var init, c := b[..|b| - 1], b[|b| - 1];
      PiecesGlue(a, init);
      assert (a + b)[..|a + b| - 1] == a + init;
      assert Pieces(a + b) == Extend(Pieces(a + init), c);
      GlueExtend(Pieces(a), Pieces(init), c);
    }
  }

  lemma {:induction false} NonEmptyConcat(a: seq<seq<Byte>>, b: seq<seq<Byte>>)
    ensures NonEmpty(a + b) == NonEmpty(a) + NonEmpty(b)
  {
    if b == [] {
      assert a + b == a;
    } else {
      assert (a + b)[..|a + b| - 1] == a + b[..|b| - 1];
      NonEmptyConcat(a, b[..|b| - 1]);
    }
  }

  function Kept(piece: seq<Byte>): seq<seq<Byte>> {
    if piece == [] then [] else [piece]
  }

  lemma NonEmptyOne(piece: seq<Byte>)
    ensures NonEmpty([piece]) == Kept(piece)
  {
    assert [piece][..0] == [];
  }

  lemma NonEmptyFirst(first: seq<Byte>, rest: seq<seq<Byte>>)
    ensures NonEmpty([first] + rest) == Kept(first) + NonEmpty(rest)
  {
    NonEmptyOne(first);
    NonEmptyConcat([first], rest);
  }

  lemma NonEmptyLast(front: seq<seq<Byte>>, last: seq<Byte>)
    ensures NonEmpty(front + [last]) == NonEmpty(front) + Kept(last)
  {
    NonEmptyOne(last);
    NonEmptyConcat(front, [last]);
  }

  lemma NonEmptyMiddle(front: seq<seq<Byte>>, piece: seq<Byte>, rest: seq<seq<Byte>>)
    ensures NonEmpty(front + [piece] + rest) == NonEmpty(front) + Kept(piece) + NonEmpty(rest)
  {
    NonEmptyConcat(front + [piece], rest);
    NonEmptyLast(front, piece);
  }

  lemma {:induction false} LastPieceEmpty(s: seq<Byte>)
    ensures Pieces(s)[|Pieces(s)| - 1] == [] <==> s == [] || s[|s| - 1] == NEWLINE
  {
  }

  lemma {:induction false} FirstPieceEmpty(s: seq<Byte>)
    ensures Pieces(s)[0] == [] <==> s == [] || s[0] == NEWLINE
  {
    if |s| > 1 {
      FirstPieceEmpty(s[..|s| - 1]);
    } else if |s| == 1 {
      assert s[..0] == [] && Pieces(s[..0]) == [[]];
    }
  }

  /** A cut is clean if a newline is on one side of it. */
  predicate CleanCut(a: seq<Byte>, b: seq<Byte>) {
    a == [] || b == [] || a[|a| - 1] == NEWLINE || b[0] == NEWLINE
  }

  /** A clean cut keeps the lines; any other turns one line into two. */
  lemma LinesAtCut(a: seq<Byte>, b: seq<Byte>)
    ensures CleanCut(a, b) ==> Lines(a + b) == Lines(a) + Lines(b)
    ensures !CleanCut(a, b) ==> |Lines(a + b)| + 1 == |Lines(a)| + |Lines(b)|
  {
    PiecesGlue(a, b);
    LastPieceEmpty(a);
    FirstPieceEmpty(b);
    PiecesAtCut(Pieces(a), Pieces(b));
  }

  lemma PiecesAtCut(a: seq<seq<Byte>>, b: seq<seq<Byte>>)
    requires a != [] && b != []
    ensures a[|a| - 1] == [] || b[0] == [] ==> NonEmpty(Glue(a, b)) == NonEmpty(a) + NonEmpty(b)
    ensures a[|a| - 1] != [] && b[0] != [] ==> |NonEmpty(Glue(a, b))| + 1 == |NonEmpty(a)| + |NonEmpty(b)|
  {
    var front, last, first, rest := a[..|a| - 1], a[|a| - 1], b[0], b[1..];
    NonEmptyMiddle(front, last + first, rest);
    NonEmptyLast(front, last);
    NonEmptyFirst(first, rest);
    KeptAtCut(NonEmpty(front), last, first, NonEmpty(rest));
    EndsApart(a, b);
  }

  lemma EndsApart(a: seq<seq<Byte>>, b: seq<seq<Byte>>)
    requires a != [] && b != []
    ensures a[..|a| - 1] + [a[|a| - 1]] == a && [b[0]] + b[1..] == b
  {
  }

  lemma KeptAtCut(left: seq<seq<Byte>>, a: seq<Byte>, b: seq<Byte>, right: seq<seq<Byte>>)
    ensures a == [] || b == [] ==> left + Kept(a + b) + right == (left + Kept(a)) + (Kept(b) + right)
    ensures a != [] && b != [] ==> |left + Kept(a + b) + right| + 1 == |left + Kept(a)| + |Kept(b) + right|
  {
    assert a == [] ==> a + b == b;
    assert b == [] ==> a + b == a;
  }

  // A stream that arrives in reads.

  function Concat(chunks: seq<seq<Byte>>): seq<Byte> {
    if chunks == [] then [] else Concat(chunks[..|chunks| - 1]) + chunks[|chunks| - 1]
  }

  /** What the listener processes: the nonempty lines of each read by itself. */
  function Processed(chunks: seq<seq<Byte>>): seq<seq<Byte>> {
    if chunks == [] then [] else Processed(chunks[..|chunks| - 1]) + Lines(chunks[|chunks| - 1])
  }

  function UncleanCuts(chunks: seq<seq<Byte>>): nat {
    if chunks == [] then 0
    else
      var init, last := chunks[..|chunks| - 1], chunks[|chunks| - 1];
      UncleanCuts(init) + if CleanCut(Concat(init), last) then 0 else 1
  }

  /** Every unclean cut costs exactly one broken line. */
  lemma {:induction false} BrokenLines(chunks: seq<seq<Byte>>)
    ensures |Processed(chunks)| == |Lines(Concat(chunks))| + UncleanCuts(chunks)
    ensures UncleanCuts(chunks) == 0 ==> Processed(chunks) == Lines(Concat(chunks))
  {
    if chunks == [] {
      assert Pieces([]) == [[]];
      NonEmptyOne([]);
    } else {
      BrokenLines(chunks[..|chunks| - 1]);
      LinesAtCut(Concat(chunks[..|chunks| - 1]), chunks[|chunks| - 1]);
    }
  }

  /** For a stream of any length, cut into reads in any way: the messages processed are exactly
      the nonempty lines of the whole stream, in order, if and only if every cut is clean. */
  lemma FramingExact(chunks: seq<seq<Byte>>)
    ensures Processed(chunks) == Lines(Concat(chunks)) <==> UncleanCuts(chunks) == 0
  {
    BrokenLines(chunks);
  }

  // Long lines.

  lemma {:induction false} PiecesFit(s: seq<Byte>)
    ensures forall p :: p in Pieces(s) ==> |p| <= |s|
  {
    if s != [] {
      var init := s[..|s| - 1];
      PiecesFit(init);
      var before := Pieces(init);
      assert before[|before| - 1] in before;
    }
  }

  lemma {:induction false} NonEmptySelects(pieces: seq<seq<Byte>>, p: seq<Byte>)
    requires p in NonEmpty(pieces)
    ensures p in pieces
  {
    if p in NonEmpty(pieces[..|pieces| - 1]) {
      NonEmptySelects(pieces[..|pieces| - 1], p);
    }
  }

  predicate FitBuffer(chunks: seq<seq<Byte>>) {
    forall i :: 0 <= i < |chunks| ==> |chunks[i]| <= BUFFER_SIZE
  }

  /** No message is longer than the buffer. */
  lemma {:induction false} MessagesFit(chunks: seq<seq<Byte>>, message: seq<Byte>)
    requires FitBuffer(chunks) && message in Processed(chunks)
    ensures |message| <= 4096
  {
    var init, last := chunks[..|chunks| - 1], chunks[|chunks| - 1];
    if message in Processed(init) {
      MessagesFit(init, message);
    } else {
      NonEmptySelects(Pieces(last), message);
      PiecesFit(last);
    }
  }

  /** So a line longer than the buffer is never framed right, however the stream is cut: some cut
      is unclean, and the messages are not the lines of the stream. */
  lemma LongLineIsBroken(chunks: seq<seq<Byte>>, line: seq<Byte>)
    requires FitBuffer(chunks) && line in Lines(Concat(chunks)) && |line| > BUFFER_SIZE
    ensures line !in Processed(chunks)
    ensures UncleanCuts(chunks) > 0 && Processed(chunks) != Lines(Concat(chunks))
  {
    if line in Processed(chunks) {
      MessagesFit(chunks, line);
    }
    FramingExact(chunks);
  }

  // The read loop over the reused buffer.

  datatype Slice = Slice(lo: nat, hi: nat)

  ghost predicate Within(slices: seq<Slice>, n: nat) {
    forall i :: 0 <= i < |slices| ==> slices[i].lo <= slices[i].hi <= n
  }

  /** What the slices show of the buffer now. */
  ghost function Views(buffer: seq<Byte>, slices: seq<Slice>): seq<seq<Byte>>
    requires Within(slices, |buffer|)
  {
    seq(|slices|, i requires 0 <= i < |slices| => buffer[slices[i].lo..slices[i].hi])
  }

  lemma ViewsGrow(buffer: seq<Byte>, slices: seq<Slice>, slice: Slice)
    requires Within(slices, |buffer|) && slice.lo <= slice.hi <= |buffer|
    ensures Within(slices + [slice], |buffer|)
    ensures Views(buffer, slices + [slice]) == Views(buffer, slices) + [buffer[slice.lo..slice.hi]]
  {
  }

  /** The slices and the open piece from `lo` on show the pieces of the first `i` bytes. */
  ghost predicate SplitUpTo(bytes: seq<Byte>, slices: seq<Slice>, lo: nat, i: nat) {
    && lo <= i <= |bytes| && Within(slices, i)
    && Views(bytes, slices) + [bytes[lo..i]] == Pieces(bytes[..i])
  }

  lemma OneByteMore(bytes: seq<Byte>, i: nat)
    requires i < |bytes|
    ensures Pieces(bytes[..i + 1]) == Extend(Pieces(bytes[..i]), bytes[i])
  {
    assert bytes[..i + 1][..i] == bytes[..i];
  }

  lemma CloseSlice(bytes: seq<Byte>, slices: seq<Slice>, lo: nat, i: nat)
    requires SplitUpTo(bytes, slices, lo, i) && i < |bytes| && bytes[i] == NEWLINE
    ensures SplitUpTo(bytes, slices + [Slice(lo, i)], i + 1, i + 1)
  {
    OneByteMore(bytes, i);
    ViewsGrow(bytes, slices, Slice(lo, i));
    assert bytes[i + 1..i + 1] == [];
  }

  lemma ExtendSlice(bytes: seq<Byte>, slices: seq<Slice>, lo: nat, i: nat)
    requires SplitUpTo(bytes, slices, lo, i) && i < |bytes| && bytes[i] != NEWLINE
    ensures SplitUpTo(bytes, slices, lo, i + 1)
  {
    OneByteMore(bytes, i);
    assert bytes[lo..i + 1] == bytes[lo..i] + [bytes[i]];
  }

  /** Splits the first `n` bytes of the buffer into slices of it, without copying. */
  method Split(buffer: array<Byte>, n: nat) returns (slices: seq<Slice>)
    requires n <= buffer.Length
    ensures Within(slices, n)
    ensures Views(buffer[..], slices) == Pieces(buffer[..n])
  {
    slices := [];
    var lo := 0;
    ghost var bytes := buffer[..];
    for i := 0 to n
      invariant SplitUpTo(bytes, slices, lo, i)
    {
      if buffer[i] == NEWLINE {
        CloseSlice(bytes, slices, lo, i);
        slices := slices + [Slice(lo, i)];
        lo := i + 1;
      } else {
        ExtendSlice(bytes, slices, lo, i);
      }
    }
    ViewsGrow(bytes, slices, Slice(lo, n));
    assert bytes[..n] == buffer[..n];
    slices := slices + [Slice(lo, n)];
  }

  datatype ReadResult = Data(bytes: seq<Byte>) | Failed

  /** The bytes of the reads up to the first failure, cancellation or end of the input. */
  function Received(results: seq<ReadResult>, cancelled: nat -> bool, n: nat): seq<seq<Byte>>
    requires n <= |results|
  {
    if n == 0 then []
    else
      var before := Received(results, cancelled, n - 1);
      if |before| < n - 1 || cancelled(n - 1) || results[n - 1].Failed? then before
      else before + [results[n - 1].bytes]
  }

  /** `cancelled(k)` says that the listener is found stopped before read `k`. */
  method ReadMessages(buffer: array<Byte>, results: seq<ReadResult>, cancelled: nat -> bool)
    returns (processed: seq<seq<Byte>>)
    requires buffer.Length == BUFFER_SIZE
    requires forall i :: 0 <= i < |results| && results[i].Data? ==> |results[i].bytes| <= BUFFER_SIZE
    modifies buffer
    ensures processed == Processed(Received(results, cancelled, |results|))
  {
    processed := [];
    for k := 0 to |results|
      invariant |Received(results, cancelled, k)| == k
      invariant processed == Processed(Received(results, cancelled, k))
    {
      if cancelled(k) || results[k].Failed? {
        StaysStopped(results, cancelled, k + 1, |results|);
        return;
      }
      ghost var before := Received(results, cancelled, k);
      assert (before + [results[k].bytes])[..k] == before;
      processed := ProcessRead(buffer, results[k].bytes, processed);
    }
  }

  /** One read and the messages in it. */
  method ProcessRead(buffer: array<Byte>, bytes: seq<Byte>, earlier: seq<seq<Byte>>) returns (processed: seq<seq<Byte>>)
    requires |bytes| <= buffer.Length
    modifies buffer
    ensures processed == earlier + Lines(bytes)
  {
    Fill(buffer, bytes);
    processed := earlier;
    if |bytes| > 0 {
      var slices := Split(buffer, |bytes|);
      processed := ProcessAll(buffer, slices, processed);
    } else {
      assert bytes == [] && Pieces([]) == [[]];
      NonEmptyOne([]);
    }
  }

  lemma {:induction false} StaysStopped(results: seq<ReadResult>, cancelled: nat -> bool, k: nat, n: nat)
    requires k <= n <= |results| && |Received(results, cancelled, k)| < k
    ensures Received(results, cancelled, n) == Received(results, cancelled, k)
  {
    if k < n {
      StaysStopped(results, cancelled, k, n - 1);
    }
  }

  /** One read: the buffer's front is overwritten. */
  method Fill(buffer: array<Byte>, bytes: seq<Byte>)
    requires |bytes| <= buffer.Length
    modifies buffer
    ensures buffer[..|bytes|] == bytes
  {
    for i := 0 to |bytes|
      invariant buffer[..i] == bytes[..i]
    {
      buffer[i] := bytes[i];
    }
  }

  /** Every slice is read while the buffer still holds it. */
  method ProcessAll(buffer: array<Byte>, slices: seq<Slice>, earlier: seq<seq<Byte>>) returns (processed: seq<seq<Byte>>)
    requires Within(slices, buffer.Length)
    ensures processed == earlier + NonEmpty(Views(buffer[..], slices))
  {
    processed := earlier;
    ghost var views := Views(buffer[..], slices);
    for i := 0 to |slices|
      invariant processed == earlier + NonEmpty(views[..i])
    {
      var message := buffer[slices[i].lo..slices[i].hi];
      assert views[i] == message;
      assert views[..i + 1][..i] == views[..i];
      if |message| > 0 {
        processed := processed + [message];
      }
    }
    assert views[..|slices|] == views;
  }
}
