/**
 Incremental detokenisation (lib/tokenizers/src/lib.rs): `DecodeStream::step` and
 `Sequence::append_token_id` as functions on their state, and what they return over whole
 runs compared with decoding everything at once.
 */
module Streaming {
  import opened Utf8
  import opened ByteDecoder

  /** Tokens seen so far, and the two offsets of the decoding window. */
  datatype Stream = Stream(ids: seq<TokenId>, prefix: nat, read: nat)

  ghost predicate Offsets(s: Stream) { s.prefix <= s.read <= |s.ids| }

  /** `Panic` is Rust's abort when a string is sliced inside a character. */
  datatype StepResult = Chunk(text: seq<byte>) | NoChunk | Panic

  const INITIAL_OFFSET := 5

  function Started(prompt: seq<TokenId>): Stream {
    Stream(prompt, if |prompt| < INITIAL_OFFSET then 0 else |prompt| - INITIAL_OFFSET, |prompt|)
  }

  /** Is there a chunk to return: more text than before, and nothing unfinished at its end? */
  predicate Ready(tk: Tokenizer, skip: bool, s: Stream, id: TokenId)
    requires Offsets(s)
  {
    var ids := s.ids + [id];
    var newResult := Decode(tk, ids[s.prefix..], skip);
    |newResult.text| > |Decode(tk, ids[s.prefix..s.read], skip).text| && !newResult.Partial?
  }

  function Next(s: Stream, id: TokenId, ready: bool): Stream {
    if ready then Stream(s.ids + [id], s.read, |s.ids| + 1) else s.(ids := s.ids + [id])
  }

  /** `DecodeStream::step`. */
  function Step(tk: Tokenizer, skip: bool, s: Stream, id: TokenId): (Stream, StepResult)
    requires Offsets(s)
  {
    var ids := s.ids + [id];
    var prefixText := Decode(tk, ids[s.prefix..s.read], skip).text;
    var newText := Decode(tk, ids[s.prefix..], skip).text;
    if !Ready(tk, skip, s, id) then (Next(s, id, false), NoChunk)
    else if !IsBoundary(newText, |prefixText|) then (Next(s, id, false), Panic)
    else (Next(s, id, true), Chunk(newText[|prefixText|..]))
  }

  /** A new stream has read its prompt, and its window is the last five tokens of it, or all. */
  lemma StartedWindow(tk: Tokenizer, skip: bool, prompt: seq<TokenId>)
    ensures var s, n := Started(prompt), |prompt|;
            && Offsets(s) && s.ids == prompt && Pending(tk, skip, s) == []
            && Window(tk, skip, s) == Bytes(tk, if n < 5 then prompt else prompt[n - 5..], skip)
  {
    var s := Started(prompt);
    assert s.ids[s.read..] == [];
    assert s.ids[s.prefix..s.read] == if |prompt| < 5 then prompt else prompt[|prompt| - 5..];
  }

  // ----- one step

  function Window(tk: Tokenizer, skip: bool, s: Stream): seq<byte>
    requires Offsets(s)
  {
    Bytes(tk, s.ids[s.prefix..s.read], skip)
  }

  function Pending(tk: Tokenizer, skip: bool, s: Stream): seq<byte>
    requires Offsets(s)
  {
    Bytes(tk, s.ids[s.read..], skip)
  }

  /** With a clean window, the text decoded by a step is the window's text followed by the text of the pending bytes. */
  lemma WindowSplits(tk: Tokenizer, skip: bool, s: Stream, id: TokenId)
    requires Offsets(s) && Clean(Window(tk, skip, s))
    ensures var ids, w := s.ids + [id], Window(tk, skip, s);
            var p := Bytes(tk, ids[s.read..], skip);
            && Bytes(tk, ids[s.prefix..s.read], skip) == w
            && p == Pending(tk, skip, s) + Bytes(tk, [id], skip)
            && Bytes(tk, ids[s.prefix..], skip) == w + p
            && Decode(tk, ids[s.prefix..s.read], skip).text == Lossy(w)
            && Decode(tk, ids[s.prefix..], skip).text == Lossy(w) + Lossy(p)
  {
    var ids := s.ids + [id];
    assert ids[s.prefix..s.read] == s.ids[s.prefix..s.read];
    assert ids[s.read..] == s.ids[s.read..] + [id];
    assert ids[s.prefix..] == ids[s.prefix..s.read] + ids[s.read..];
    BytesConcat(tk, s.ids[s.read..], [id], skip);
    BytesConcat(tk, ids[s.prefix..s.read], ids[s.read..], skip);
    DecodeText(tk, ids[s.prefix..s.read], skip);
    DecodeText(tk, ids[s.prefix..], skip);
    LossySplits(Window(tk, skip, s), Bytes(tk, ids[s.read..], skip));
  }

  lemma ReadyOnCleanWindow(tk: Tokenizer, skip: bool, s: Stream, id: TokenId)
    requires Offsets(s) && Clean(Window(tk, skip, s))
    ensures var w, p := Window(tk, skip, s), Pending(tk, skip, s) + Bytes(tk, [id], skip);
            var ids := s.ids + [id];
            var prefixText := Decode(tk, ids[s.prefix..s.read], skip).text;
            var newText := Decode(tk, ids[s.prefix..], skip).text;
            && (Ready(tk, skip, s, id) <==> p != [] && (Valid(w + p) || !EndsWithReplacement(Lossy(p))))
            && (Ready(tk, skip, s, id) ==> Clean(p))
            && IsBoundary(newText, |prefixText|) && |prefixText| <= |newText|
            && newText[|prefixText|..] == Lossy(p)
  {
    hide Lossy, Valid, Clean, EndsWithReplacement, Bytes, Decode, Window, Pending, IsBoundary;
    var w, p := Window(tk, skip, s), Pending(tk, skip, s) + Bytes(tk, [id], skip);
    WindowSplits(tk, skip, s, id);
    DecodeText(tk, (s.ids + [id])[s.prefix..], skip);
    LossyIsValid(p);
    LossySplits(w, p);
    BoundaryBetween(Lossy(w), Lossy(p));
    if p != [] {
      EndingDecides(Lossy(w), Lossy(p));
    }
    assert (Lossy(w) + Lossy(p))[|Lossy(w)|..] == Lossy(p);
  }

  lemma NextWindow(tk: Tokenizer, skip: bool, s: Stream, id: TokenId, ready: bool)
    requires Offsets(s)
    ensures var t, p := Next(s, id, ready), Pending(tk, skip, s) + Bytes(tk, [id], skip);
            && Offsets(t)
            && (if ready then Window(tk, skip, t) == p && Pending(tk, skip, t) == []
                else Window(tk, skip, t) == Window(tk, skip, s) && Pending(tk, skip, t) == p)
  {
    hide Bytes;
    var t := Next(s, id, ready);
    NothingPending(tk, skip);
    BytesConcat(tk, s.ids[s.read..], [id], skip);
    assert t.ids[s.read..] == s.ids[s.read..] + [id];
    assert t.ids[s.prefix..s.read] == s.ids[s.prefix..s.read];
    assert t.ids[s.read..|t.ids|] == t.ids[s.read..] && t.ids[|t.ids|..] == [];
  }

  /** With a clean window a step never slices inside a character.  It returns a chunk exactly when
      there are pending bytes and they do not end in U+FFFD (or the whole window is valid), the
      chunk is the text of exactly those bytes, and the next window is clean again. */
  lemma StepOnCleanWindow(tk: Tokenizer, skip: bool, s: Stream, id: TokenId)
    requires Offsets(s) && Clean(Window(tk, skip, s))
    ensures var (t, r) := Step(tk, skip, s, id);
            var p := Pending(tk, skip, s) + Bytes(tk, [id], skip);
            && Offsets(t) && Clean(Window(tk, skip, t))
            && t.ids == s.ids + [id] && (if r.Chunk? then t.read == |t.ids| else t.read == s.read)
            && (r.Chunk? <==> p != [] && (Valid(Window(tk, skip, s) + p) || !EndsWithReplacement(Lossy(p))))
            && (r.Chunk? ==> r.text == Lossy(p) && Clean(p) && Window(tk, skip, t) == p && Pending(tk, skip, t) == [])
            && (!r.Chunk? ==> r.NoChunk? && Window(tk, skip, t) == Window(tk, skip, s) && Pending(tk, skip, t) == p)
  {
    hide Lossy, Valid, Clean, EndsWithReplacement, Bytes, Decode, Window, Pending, IsBoundary, Ready;
    ReadyOnCleanWindow(tk, skip, s, id);
    NextWindow(tk, skip, s, id, Ready(tk, skip, s, id));
  }

  /** On text that is valid so far, a chunk appears exactly when the pending bytes end on a character. */
  lemma StepOnValidText(tk: Tokenizer, skip: bool, s: Stream, id: TokenId, future: seq<byte>)
    requires Offsets(s) && Valid(Window(tk, skip, s))
    requires Valid(Pending(tk, skip, s) + Bytes(tk, [id], skip) + future)
    ensures var (t, r) := Step(tk, skip, s, id);
            var p := Pending(tk, skip, s) + Bytes(tk, [id], skip);
            && (r.Chunk? <==> p != [] && Valid(p))
            && (r.Chunk? ==> r.text == p)
  {
    hide Lossy, Valid, Clean, EndsWithReplacement, Bytes, Window, Pending, Step;
    ValidIsClean(Window(tk, skip, s));
    StepOnCleanWindow(tk, skip, s, id);
    var p := Pending(tk, skip, s) + Bytes(tk, [id], skip);
    ValidSplits(Window(tk, skip, s), p);
    if Valid(p) {
      ValidIsClean(p);
    } else if Clean(p) {
      CleanPrefixIsValid(p, future);
    } else {
      UnfinishedShows(p);
    }
  }

  // ----- whole runs of DecodeStream

  /** Everything a run returned: the final state, the chunks joined, and whether it aborted. */
  datatype Fed = Fed(state: Stream, text: seq<byte>, panicked: bool)

  function Feed(tk: Tokenizer, skip: bool, s: Stream, ids: seq<TokenId>): (r: Fed)
    requires Offsets(s)
    ensures Offsets(r.state)
    decreases |ids|
  {
    if ids == [] then Fed(s, [], false)
    else
      var (t, r) := Step(tk, skip, s, ids[0]);
      if r.Panic? then Fed(t, [], true)
      else
        var rest := Feed(tk, skip, t, ids[1..]);
        rest.(text := (if r.Chunk? then r.text else []) + rest.text)
  }

  /** Streaming equals decoding at once, for every byte stream: the chunks returned so far join to
      the text of the tokens between the read offset at the start and the read offset now. */
  lemma {:induction false} FeedEqualsDecode(tk: Tokenizer, skip: bool, s: Stream, ids: seq<TokenId>)
    requires Offsets(s) && Clean(Window(tk, skip, s))
    ensures var r := Feed(tk, skip, s, ids);
            && !r.panicked
            && r.state.ids == s.ids + ids
            && s.read <= r.state.read
            && r.text == Lossy(Bytes(tk, r.state.ids[s.read..r.state.read], skip))
            && Clean(Bytes(tk, r.state.ids[s.read..r.state.read], skip))
            && Clean(Window(tk, skip, r.state))
    decreases |ids|
  {
    hide Lossy, Clean, Step, Window, Pending, Bytes;
    if ids == [] {
      assert s.ids + ids == s.ids;
      assert s.ids[s.read..s.read] == [];
      NothingPending(tk, skip);
    } else {
      var (t, r) := Step(tk, skip, s, ids[0]);
      StepOnCleanWindow(tk, skip, s, ids[0]);
      FeedEqualsDecode(tk, skip, t, ids[1..]);
      var all, end := s.ids + ids, Feed(tk, skip, s, ids).state.read;
      assert all == t.ids + ids[1..];
      if r.Chunk? {
        PendingIs(tk, skip, s, ids[0]);
        JoinChunk(tk, skip, all, s.read, t.read, end, t.ids);
      }
    }
  }

  lemma NothingPending(tk: Tokenizer, skip: bool)
    ensures Bytes(tk, [], skip) == [] && Lossy([]) == [] && Clean([])
  {
  }

  lemma PendingIs(tk: Tokenizer, skip: bool, s: Stream, id: TokenId)
    requires Offsets(s)
    ensures Bytes(tk, (s.ids + [id])[s.read..], skip) == Pending(tk, skip, s) + Bytes(tk, [id], skip)
  {
    BytesConcat(tk, s.ids[s.read..], [id], skip);
    assert (s.ids + [id])[s.read..] == s.ids[s.read..] + [id];
  }

  lemma JoinSlices(all: seq<TokenId>, a: nat, b: nat, c: nat, front: seq<TokenId>)
    requires a <= b <= c <= |all| && front == all[..b]
    ensures all[a..c] == front[a..] + all[b..c]
  {
    assert front[a..] == all[a..b];
  }

  /** The tokens of one chunk and of all later chunks decode to the two texts joined. */
  lemma JoinChunk(tk: Tokenizer, skip: bool, all: seq<TokenId>, a: nat, b: nat, c: nat, front: seq<TokenId>)
    requires a <= b <= c <= |all| && b == |front| && front == all[..b]
    requires Clean(Bytes(tk, front[a..], skip)) && Clean(Bytes(tk, all[b..c], skip))
    ensures Lossy(Bytes(tk, all[a..c], skip)) == Lossy(Bytes(tk, front[a..], skip)) + Lossy(Bytes(tk, all[b..c], skip))
    ensures Clean(Bytes(tk, all[a..c], skip))
  {
    hide Lossy, Clean, Bytes;
    JoinSlices(all, a, b, c, front);
    BytesConcat(tk, front[a..], all[b..c], skip);
    LossySplits(Bytes(tk, front[a..], skip), Bytes(tk, all[b..c], skip));
  }

  /** On text that is valid so far nothing is lost, changed or held back longer than needed. */
  lemma {:induction false} FeedValidText(tk: Tokenizer, skip: bool, s: Stream, ids: seq<TokenId>, future: seq<byte>)
    requires Offsets(s) && Valid(Window(tk, skip, s))
    requires Pending(tk, skip, s) == [] || !Valid(Pending(tk, skip, s))
    requires Valid(Pending(tk, skip, s) + Bytes(tk, ids, skip) + future)
    ensures var r := Feed(tk, skip, s, ids);
            && !r.panicked && Valid(r.text)
            && r.text + Pending(tk, skip, r.state) == Pending(tk, skip, s) + Bytes(tk, ids, skip)
            && (Pending(tk, skip, r.state) == [] || !Valid(Pending(tk, skip, r.state)))
    decreases |ids|
  {
    hide Lossy, Clean, Valid, Step, Window, Pending, Bytes;
    var p := Pending(tk, skip, s);
    if ids == [] {
      NothingPending(tk, skip);
      ValidNothing();
      assert p + [] == p && [] + p == p;
    } else {
      var (t, r) := Step(tk, skip, s, ids[0]);
      var head, tail := Bytes(tk, [ids[0]], skip), Bytes(tk, ids[1..], skip);
      assert Bytes(tk, ids, skip) == head + tail by {
        assert ids == [ids[0]] + ids[1..];
        BytesConcat(tk, [ids[0]], ids[1..], skip);
      }
      assert p + Bytes(tk, ids, skip) + future == (p + head) + (tail + future);
      StepOnValidText(tk, skip, s, ids[0], tail + future);
      ValidIsClean(Window(tk, skip, s));
      StepOnCleanWindow(tk, skip, s, ids[0]);
      if r.Chunk? {
        ValidIsClean(p + head);
        ValidSplits(p + head, tail + future);
        assert [] + tail + future == tail + future;
      } else {
        assert (p + head) + tail + future == (p + head) + (tail + future);
      }
      FeedValidText(tk, skip, t, ids[1..], future);
      JoinPending(r, Feed(tk, skip, t, ids[1..]).text, p + head, Pending(tk, skip, t), tail,
                  Pending(tk, skip, Feed(tk, skip, t, ids[1..]).state));
      assert p + (head + tail) == (p + head) + tail;
    }
  }

  lemma ValidNothing()
    ensures Valid([])
  {
  }

  lemma JoinPending(r: StepResult, later: seq<byte>, p: seq<byte>, q: seq<byte>, tail: seq<byte>, end: seq<byte>)
    requires r.Chunk? ==> r.text == p && q == [] && Valid(p)
    requires !r.Chunk? ==> q == p
    requires Valid(later) && later + end == q + tail
    ensures var text := (if r.Chunk? then r.text else []) + later;
            Valid(text) && text + end == p + tail
  {
    hide Valid;
    if r.Chunk? {
      ValidConcat(p, later);
      assert p + later + end == p + (later + end);
      assert q + tail == tail;
    } else {
      assert [] + later == later;
    }
  }

  /** After a prompt whose window is valid text, streaming any complete text returns exactly that text. */
  lemma StreamReturnsWholeText(tk: Tokenizer, skip: bool, prompt: seq<TokenId>, ids: seq<TokenId>)
    requires Valid(Window(tk, skip, Started(prompt))) && Valid(Bytes(tk, ids, skip))
    ensures var r := Feed(tk, skip, Started(prompt), ids);
            !r.panicked && r.text == Bytes(tk, ids, skip) == Decode(tk, ids, skip).text
  {
    hide Lossy, Clean, Valid, Feed, Window, EndsWithReplacement;
    var s, bytes := Started(prompt), Bytes(tk, ids, skip);
    assert prompt[|prompt|..] == [] && Pending(tk, skip, s) == [];
    assert bytes + [] == bytes && [] + bytes == bytes;
    FeedValidText(tk, skip, s, ids, []);
    var r := Feed(tk, skip, s, ids);
    ValidIsClean(r.text);
    ValidSplits(r.text, Pending(tk, skip, r.state));
  }
}
