/** `Sequence::append_token_id` (lib/tokenizers/src/lib.rs): the incremental decoder that backs off
    to a character boundary and drops U+FFFD, compared with `DecodeStream` and with decoding at once. */
module TokenSequence {
  import opened Utf8
  import opened CodePoints
  import opened ByteDecoder
  import opened Streaming

  /** The greatest character boundary of `text` that is not past `n`, found by counting down. */
  function BackOff(text: seq<byte>, n: nat): (k: nat)
    ensures k <= n && IsBoundary(text, k)
    ensures forall j :: k < j <= n ==> !IsBoundary(text, j)
  {
    if IsBoundary(text, n) || n == 0 then n else BackOff(text, n - 1)
  }

  method FindBoundary(text: seq<byte>, n: nat) returns (k: nat)
    ensures k == BackOff(text, n)
    ensures k <= |text|
  {
    k := n;
    while !IsBoundary(text, k) && k > 0
      invariant BackOff(text, k) == BackOff(text, n)
    {
      k := k - 1;
    }
  }

  function Append(tk: Tokenizer, s: Stream, id: TokenId): (Stream, seq<byte>)
    requires Offsets(s)
  {
    var ids := s.ids + [id];
    var newText := Decode(tk, ids[s.prefix..], false).text;
    var from := BackOff(newText, |Decode(tk, ids[s.prefix..s.read], false).text|);
    if Ready(tk, false, s, id) then (Next(s, id, true), Stripped(newText[from..]))
    else (Next(s, id, false), [])
  }

  /** With a clean window the back-off has nothing to do: an appended token returns what a
      `DecodeStream` step would, without U+FFFD. */
  lemma AppendMatchesStep(tk: Tokenizer, s: Stream, id: TokenId)
    requires Offsets(s) && Clean(Window(tk, false, s))
    ensures var (t, r) := Step(tk, false, s, id);
            Append(tk, s, id) == (t, if r.Chunk? then Stripped(r.text) else [])
  {
    hide Lossy, Valid, Clean, EndsWithReplacement, Bytes, Decode, Window, Pending, Ready, IsBoundary;
    ReadyOnCleanWindow(tk, false, s, id);
    var ids := s.ids + [id];
    BackOffStays(Decode(tk, ids[s.prefix..], false).text, |Decode(tk, ids[s.prefix..s.read], false).text|);
  }

  /** With a clean window, an appended token that is read returns every character of the pending bytes but
      U+FFFD. */
  lemma AppendReturnsCharacters(tk: Tokenizer, s: Stream, id: TokenId)
    requires Offsets(s)
    ensures var (t, text) := Append(tk, s, id);
            Clean(Window(tk, false, s)) && t.read == |t.ids| ==>
              var decoding := Lossy(Bytes(tk, s.ids[s.read..] + [id], false));
              && Valid(decoding) && Valid(text) && Decoded(text) == Without(Decoded(decoding), 0xFFFD)
  {
    hide Lossy, Valid, Clean, EndsWithReplacement, Bytes, Append, Step, Window, Decoded, Stripped;
    if Clean(Window(tk, false, s)) {
      AppendMatchesStep(tk, s, id);
      StepOnCleanWindow(tk, false, s, id);
      BytesConcat(tk, s.ids[s.read..], [id], false);
      var p := Bytes(tk, s.ids[s.read..] + [id], false);
      LossyIsValid(p);
      StrippedText(Lossy(p));
    }
  }

  lemma BackOffStays(text: seq<byte>, n: nat)
    requires IsBoundary(text, n)
    ensures BackOff(text, n) == n
  {
  }

  /** Appends tokens one by one and joins what is returned. */
  function AppendAll(tk: Tokenizer, s: Stream, ids: seq<TokenId>): (Stream, seq<byte>)
    requires Offsets(s)
    decreases |ids|
  {
    if ids == [] then (s, [])
    else
      var (t, piece) := Append(tk, s, ids[0]);
      var (u, rest) := AppendAll(tk, t, ids[1..]);
      (u, piece + rest)
  }

  lemma {:induction false} AppendAllMatchesFeed(tk: Tokenizer, s: Stream, ids: seq<TokenId>)
    requires Offsets(s) && Clean(Window(tk, false, s))
    ensures var r := Feed(tk, false, s, ids);
            AppendAll(tk, s, ids) == (r.state, Stripped(r.text))
    decreases |ids|
  {
    if ids != [] {
      hide Lossy, Valid, Clean, EndsWithReplacement, Bytes, Window, Pending, Step, Append, Stripped;
      var (t, r) := Step(tk, false, s, ids[0]);
      StepOnCleanWindow(tk, false, s, ids[0]);
      AppendMatchesStep(tk, s, ids[0]);
      AppendAllMatchesFeed(tk, t, ids[1..]);
      var rest := Feed(tk, false, t, ids[1..]).text;
      if r.Chunk? {
        CleanText(Pending(tk, false, s) + Bytes(tk, [ids[0]], false));
        StrippedSplits(r.text, rest);
      } else {
        assert [] + rest == rest && [] + Stripped(rest) == Stripped(rest);
      }
    }
  }

  lemma CleanText(p: seq<byte>)
    ensures Clean(Lossy(p))
  {
    LossyIsValid(p);
    ValidIsClean(Lossy(p));
  }

  const EMPTY: Stream := Stream([], 0, 0)

  /** For every token stream, what was returned so far is the decoding of the tokens read so far
      without U+FFFD; for a stream that is valid text, of all of it. */
  lemma SequenceEqualsDecode(tk: Tokenizer, ids: seq<TokenId>)
    ensures var (s, text) := AppendAll(tk, EMPTY, ids);
            && s.ids == ids && Offsets(s)
            && text == Stripped(Lossy(Bytes(tk, ids[..s.read], false)))
            && (Valid(Bytes(tk, ids, false)) ==> text == Stripped(Bytes(tk, ids, false)))
  {
    hide Lossy, Clean, Valid, Feed, AppendAll, Stripped, EndsWithReplacement;
    assert EMPTY.ids[0..0] == [];
    assert Started([]) == EMPTY;
    NothingPending(tk, false);
    FeedEqualsDecode(tk, false, EMPTY, ids);
    AppendAllMatchesFeed(tk, EMPTY, ids);
    var s := AppendAll(tk, EMPTY, ids).0;
    assert [] + ids == ids && ids[0..s.read] == ids[..s.read];
    if Valid(Bytes(tk, ids, false)) {
      ValidNothing();
      StreamReturnsWholeText(tk, false, [], ids);
    }
  }

  /** The same by characters: every character of the decoding is returned, in order, but U+FFFD; so valid
      text without U+FFFD comes back unchanged. */
  lemma SequenceReturnsCharacters(tk: Tokenizer, ids: seq<TokenId>)
    ensures var (s, text) := AppendAll(tk, EMPTY, ids);
            && Offsets(s) && s.ids == ids
            && var decoding := Lossy(Bytes(tk, ids[..s.read], false));
               && Valid(decoding) && Valid(text)
               && Decoded(text) == Without(Decoded(decoding), 0xFFFD)
    ensures Valid(Bytes(tk, ids, false)) && 0xFFFD !in Decoded(Bytes(tk, ids, false)) ==>
              AppendAll(tk, EMPTY, ids).1 == Bytes(tk, ids, false)
  {
    hide Lossy, Valid, AppendAll, Stripped, Decoded, Bytes;
    SequenceEqualsDecode(tk, ids);
    var decoding := Lossy(Bytes(tk, ids[..AppendAll(tk, EMPTY, ids).0.read], false));
    LossyIsValid(Bytes(tk, ids[..AppendAll(tk, EMPTY, ids).0.read], false));
    StrippedText(decoding);
    if Valid(Bytes(tk, ids, false)) {
      StrippedText(Bytes(tk, ids, false));
    }
  }
}
