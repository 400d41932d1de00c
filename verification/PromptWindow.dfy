/** What `DecodeStream` does with a window that ends inside a character
    (lib/tokenizers/src/lib.rs, `DecodeStream::step`): exactly when text is lost, and exactly when the
    slice of the new text lands off a character boundary. */
module PromptWindow {
  import opened Utf8
  import opened ByteDecoder
  import opened Streaming

  // ----- one step as a function of bytes

  predicate EndsFinished(bytes: seq<byte>) {
    Valid(bytes) || !EndsWithReplacement(Lossy(bytes))
  }

  /** What a step returns for the window `w` and the bytes `x` behind it. */
  function Emitted(w: seq<byte>, x: seq<byte>): StepResult {
    var before, after := Lossy(w), Lossy(w + x);
    if !(|after| > |before| && EndsFinished(w + x)) then NoChunk
    else if !IsBoundary(after, |before|) then Panic
    else Chunk(after[|before|..])
  }

  /** On every stream a step depends on its window and the bytes behind the window alone. */
  lemma StepEmits(tk: Tokenizer, skip: bool, s: Stream, id: TokenId)
    requires Offsets(s)
    ensures Step(tk, skip, s, id).1 == Emitted(Window(tk, skip, s), Pending(tk, skip, s) + Bytes(tk, [id], skip))
  {
    hide Lossy, Valid, Clean, EndsWithReplacement, Bytes, Decode, IsBoundary;
    var ids := s.ids + [id];
    assert ids[s.prefix..s.read] == s.ids[s.prefix..s.read];
    assert ids[s.prefix..] == ids[s.prefix..s.read] + ids[s.read..];
    PendingIs(tk, skip, s, id);
    BytesConcat(tk, ids[s.prefix..s.read], ids[s.read..], skip);
    DecodeText(tk, ids[s.prefix..s.read], skip);
    DecodeText(tk, ids[s.prefix..], skip);
  }

  /** A vocabulary with one token for the prompt's bytes and one for the bytes generated next. */
  function TwoTokens(window: seq<byte>, generated: seq<byte>): Tokenizer {
    Tokenizer((id: TokenId) => if id == 0 then window else generated, {})
  }

  /** What the first step returns after a prompt of bytes `window`. */
  function Probe(window: seq<byte>, generated: seq<byte>): StepResult {
    Step(TwoTokens(window, generated), false, Started([0]), 1).1
  }

  lemma ProbeEmits(w: seq<byte>, x: seq<byte>)
    ensures Probe(w, x) == Emitted(w, x)
    ensures Window(TwoTokens(w, x), false, Started([0])) == w
  {
    hide Bytes, Step, Emitted;
    var tk, s := TwoTokens(w, x), Started([0]);
    assert s.ids[0..1] == [0] && s.ids[1..] == [];
    BytesOfOne(tk, 0, false);
    BytesOfOne(tk, 1, false);
    NothingPending(tk, false);
    assert [] + x == x;
    StepEmits(tk, false, s, 1);
  }

  // ----- the unfinished character at the end

  /** The bytes of the unfinished character at the end, if there is one. */
  function Unfinished(s: seq<byte>): seq<byte> {
    if s == [] || Open(s) then s else Unfinished(s[UnitLen(s)..])
  }

  /** The text decoded from the bytes before it. */
  function Before(s: seq<byte>): seq<byte> {
    if s == [] || Open(s) then []
    else (if StartsWithChar(s) then s[..UnitLen(s)] else REPLACEMENT) + Before(s[UnitLen(s)..])
  }

  lemma {:induction false} UnfinishedIsEnd(s: seq<byte>)
    ensures var t := Unfinished(s);
            && (Clean(s) <==> t == []) && (t != [] ==> Open(t))
            && |t| <= |s| && s == s[..|s| - |t|] + t
  {
    hide Open, UnitLen, Clean;
    if s == [] || Open(s) {
      UnfinishedIsAll(s);
    } else {
      var rest := s[UnitLen(s)..];
      CleanTail(s);
      UnfinishedIsEnd(rest);
      EndOfEnd(s, rest, Unfinished(s));
    }
  }

  lemma UnfinishedIsAll(s: seq<byte>)
    requires s == [] || Open(s)
    ensures Unfinished(s) == s && (Clean(s) <==> s == []) && s == s[..0] + s
  {
    hide Open;
  }

  lemma EndOfEnd(s: seq<byte>, rest: seq<byte>, t: seq<byte>)
    requires |t| <= |rest| <= |s| && s[|s| - |rest|..] == rest && rest == rest[..|rest| - |t|] + t
    ensures s == s[..|s| - |t|] + t
  {
    assert rest[|rest| - |t|..] == t;
    assert s[|s| - |t|..] == t;
  }

  /** What follows only meets the unfinished character. */
  lemma {:induction false} DecodesBehind(s: seq<byte>, x: seq<byte>)
    requires !Clean(s)
    ensures Lossy(s) == Before(s) + REPLACEMENT
    ensures Lossy(s + x) == Before(s) + Lossy(Unfinished(s) + x)
  {
    hide Lossy, Open, UnitLen, StartsWithChar;
    if Open(s) {
      OpenDecodes(s);
      assert [] + REPLACEMENT == REPLACEMENT && [] + Lossy(s + x) == Lossy(s + x);
    } else {
      CleanTail(s);
      hide Clean;
      DecodesBehind(s[UnitLen(s)..], x);
      BehindUnit(s, x, Before(s[UnitLen(s)..]), Unfinished(s[UnitLen(s)..]) + x);
    }
  }

  lemma BehindUnit(s: seq<byte>, x: seq<byte>, before: seq<byte>, u: seq<byte>)
    requires s != [] && !Open(s)
    requires Lossy(s[UnitLen(s)..]) == before + REPLACEMENT && Lossy(s[UnitLen(s)..] + x) == before + Lossy(u)
    ensures var unit := if StartsWithChar(s) then s[..UnitLen(s)] else REPLACEMENT;
            Lossy(s) == (unit + before) + REPLACEMENT && Lossy(s + x) == (unit + before) + Lossy(u)
  {
    hide Lossy, Open, UnitLen, StartsWithChar;
    var unit := if StartsWithChar(s) then s[..UnitLen(s)] else REPLACEMENT;
    UnitIsLocal(s, x);
    UnfoldLossy(s);
    UnfoldLossy(s + x);
    assert unit + (before + REPLACEMENT) == (unit + before) + REPLACEMENT;
    assert unit + (before + Lossy(u)) == (unit + before) + Lossy(u);
  }

  lemma UnfoldLossy(u: seq<byte>)
    requires u != []
    ensures Lossy(u) == (if StartsWithChar(u) then u[..UnitLen(u)] else REPLACEMENT) + Lossy(u[UnitLen(u)..])
  {
  }

  // ----- exactly when a step aborts

  /** The first character of `u` is completed, and the third byte of its decoding does not end a character:
      it has four bytes, or it has two and the next character has several. */
  predicate Breaks(u: seq<byte>)
    requires u != []
  {
    StartsWithChar(u) && (Need(u[0]) == 4 || (Need(u[0]) == 2 && |u| > 2 && u[2] > 0x7F))
  }

  lemma UnitBytes(s: seq<byte>)
    requires s != []
    ensures var unit := if StartsWithChar(s) then s[..UnitLen(s)] else REPLACEMENT;
            && unit != [] && !IsContinuation(unit[0])
            && (s[0] <= 0x7F ==> unit == [s[0]] && UnitLen(s) == 1)
            && (s[0] > 0x7F ==> |unit| > 1 && IsContinuation(unit[1]))
  {
  }

  lemma FirstByte(s: seq<byte>)
    requires s != []
    ensures Lossy(s) != [] && !IsContinuation(Lossy(s)[0])
    ensures s[0] <= 0x7F ==> Lossy(s) == [s[0]] + Lossy(s[1..])
    ensures s[0] > 0x7F ==> |Lossy(s)| > 1 && IsContinuation(Lossy(s)[1])
  {
    hide Lossy, StartsWithChar, UnitLen, IsContinuation;
    UnitBytes(s);
    UnfoldLossy(s);
  }

  lemma FourthByte(u: seq<byte>)
    requires u != [] && Need(u[0]) >= 2
    ensures |Lossy(u)| > 3 && IsContinuation(Lossy(u)[3]) <==> Breaks(u)
  {
    var rest := u[UnitLen(u)..];
    LossyIsValid(rest);
    if rest != [] {
      FirstByte(rest);
      LossyIsValid(rest[1..]);
      if rest[1..] != [] {
        FirstByte(rest[1..]);
      }
    }
    hide Lossy;
    UnfoldLossy(u);
  }

  /** The exact condition, for every window and every continuation: the slice lands off a boundary if and
      only if the text is finished and completes the window's last character in one of the two ways. */
  lemma EmittedAbortsIff(w: seq<byte>, x: seq<byte>)
    ensures Emitted(w, x).Panic? <==> Unfinished(w) != [] && EndsFinished(w + x) && Breaks(Unfinished(w) + x)
  {
    hide Lossy, Valid, Clean, EndsWithReplacement, Breaks;
    UnfinishedIsEnd(w);
    if Clean(w) {
      LossySplits(w, x);
      LossyIsValid(x);
      BoundaryBetween(Lossy(w), Lossy(x));
    } else {
      DecodesBehind(w, x);
      FourthByte(Unfinished(w) + x);
      var h, l := Before(w), Lossy(Unfinished(w) + x);
      assert |l| > 3 ==> (h + l)[|h| + 3] == l[3];
    }
  }

  lemma StepAbortsIff(tk: Tokenizer, skip: bool, s: Stream, id: TokenId)
    requires Offsets(s)
    ensures var w, x := Window(tk, skip, s), Pending(tk, skip, s) + Bytes(tk, [id], skip);
            Step(tk, skip, s, id).1.Panic? <==>
            Unfinished(w) != [] && EndsFinished(w + x) && Breaks(Unfinished(w) + x)
  {
    hide Step, Emitted, Window, Pending, Bytes, Clean, Breaks, EndsFinished;
    StepEmits(tk, skip, s, id);
    EmittedAbortsIff(Window(tk, skip, s), Pending(tk, skip, s) + Bytes(tk, [id], skip));
  }

  // ----- exactly which windows are safe

  /** Nothing is unfinished at the end of the window, or a three-byte character, which is as long as the
      U+FFFD it was taken for. */
  predicate SafeWindow(w: seq<byte>) {
    Clean(w) || (Unfinished(w) != [] && Need(Unfinished(w)[0]) == 3)
  }

  lemma UnsafeBreaks(t: seq<byte>) returns (x: seq<byte>)
    requires t != [] && Open(t) && Need(t[0]) != 3
    ensures Breaks(t + x) && Valid(t + x) && !EndsWithReplacement(t + x)
  {
    hide Completion, Open, Matched, EndsWithReplacement;
    CompletionIsChar(t);
    var c := t + Completion(t);
    assert c[0] == t[0];
    WholeChar(c);
    if |c| == 4 {
      x := Completion(t);
    } else {
      CompletionWorks(t);
      var e: seq<byte> := [0xC3, 0xA9];
      WholeTwo();
      x := Completion(t) + e;
      assert t + x == c + e;
      ValidConcat(c, e);
      EndingDecides(c, e);
      StartsLikeChar(c, e);
    }
  }

  lemma WholeTwo()
    ensures Valid([0xC3, 0xA9]) && !EndsWithReplacement([0xC3, 0xA9])
  {
    var e: seq<byte> := [0xC3, 0xA9];
    assert e[2..] == [];
  }

  lemma StartsLikeChar(c: seq<byte>, e: seq<byte>)
    requires c != [] && StartsWithChar(c) && UnitLen(c) == |c|
    ensures StartsWithChar(c + e) && (c + e)[0] == c[0] && (e != [] ==> (c + e)[|c|] == e[0])
  {
    UnitIsLocal(c, e);
  }

  lemma UnsafeAborts(w: seq<byte>) returns (x: seq<byte>)
    requires !SafeWindow(w)
    ensures Emitted(w, x).Panic?
  {
    hide Lossy, Valid, Clean, EndsWithReplacement, Breaks, Emitted;
    UnfinishedIsEnd(w);
    x := UnsafeBreaks(Unfinished(w));
    DecodesBehind(w, x);
    ValidIsClean(Unfinished(w) + x);
    EndingDecides(Before(w), Unfinished(w) + x);
    EmittedAbortsIff(w, x);
  }

  lemma SafeNeverAborts(w: seq<byte>, x: seq<byte>)
    requires SafeWindow(w)
    ensures !Emitted(w, x).Panic?
  {
    hide Emitted, Clean, StartsWithChar, EndsFinished;
    UnfinishedIsEnd(w);
    EmittedAbortsIff(w, x);
    assert Unfinished(w) != [] ==> (Unfinished(w) + x)[0] == Unfinished(w)[0];
  }

  /** No continuation of a prompt aborts the first step exactly if the prompt's window is safe. */
  lemma NoStepAbortsIff(w: seq<byte>)
    ensures (forall x :: !Probe(w, x).Panic?) <==> SafeWindow(w)
  {
    hide Probe, Emitted, SafeWindow;
    if SafeWindow(w) {
      forall x
        ensures !Probe(w, x).Panic?
      {
        ProbeEmits(w, x);
        SafeNeverAborts(w, x);
      }
    } else {
      var x := UnsafeAborts(w);
      ProbeEmits(w, x);
      assert Probe(w, x).Panic?;
    }
  }

  // ----- whole runs

  lemma MatchedContinue(s: seq<byte>, i: nat)
    requires s != [] && 0 < i < Matched(s)
    ensures IsContinuation(s[i])
  {
  }

  /** An unfinished character at the end is unfinished whatever comes before it. */
  lemma {:induction false} OpenEnd(a: seq<byte>, t: seq<byte>)
    requires t != [] && Open(t)
    ensures !Clean(a + t)
  {
    var s := a + t;
    if a == [] {
      assert s == t;
    } else {
      assert s[|a|] == t[0] && !IsContinuation(t[0]);
      if UnitLen(s) > |a| {
        MatchedContinue(s, |a|);
      }
      assert s[UnitLen(s)..] == a[UnitLen(s)..] + t;
      OpenEnd(a[UnitLen(s)..], t);
    }
  }

  /** The end of clean bytes is clean, wherever it begins. */
  lemma CleanEnd(w: seq<byte>, p: seq<byte>)
    requires Clean(w + p)
    ensures Clean(p)
  {
    hide Clean, Open;
    UnfinishedIsEnd(p);
    if !Clean(p) {
      var t := Unfinished(p);
      var a := p[..|p| - |t|];
      assert w + p == (w + a) + t;
      OpenEnd(w + a, t);
    }
  }

  lemma FinishedIsClean(s: seq<byte>)
    requires EndsFinished(s)
    ensures Clean(s)
  {
    if Valid(s) {
      ValidIsClean(s);
    } else if !Clean(s) {
      UnfinishedShows(s);
    }
  }

  /** From a safe window no run aborts, on any tokens: the first chunk leaves a clean window behind. */
  lemma {:induction false} SafeRun(tk: Tokenizer, skip: bool, s: Stream, ids: seq<TokenId>)
    requires Offsets(s) && SafeWindow(Window(tk, skip, s))
    ensures !Feed(tk, skip, s, ids).panicked
    decreases |ids|
  {
    hide Lossy, Clean, Window, Pending, Bytes, Ready, EndsFinished, IsBoundary, Unfinished;
    if ids != [] {
      var w, x := Window(tk, skip, s), Pending(tk, skip, s) + Bytes(tk, [ids[0]], skip);
      StepEmits(tk, skip, s, ids[0]);
      SafeNeverAborts(w, x);
      var ready := Ready(tk, skip, s, ids[0]);
      NextWindow(tk, skip, s, ids[0], ready);
      if ready {
        FinishedIsClean(w + x);
        CleanEnd(w, x);
      }
      SafeRun(tk, skip, Next(s, ids[0], ready), ids[1..]);
    }
  }

  /** A run whose prompt leaves the window `w` and which aborts. */
  ghost predicate RunAborts(w: seq<byte>, tk: Tokenizer, skip: bool, prompt: seq<TokenId>, ids: seq<TokenId>) {
    Window(tk, skip, Started(prompt)) == w && Feed(tk, skip, Started(prompt), ids).panicked
  }

  lemma ProbeAborts(w: seq<byte>, x: seq<byte>)
    requires Emitted(w, x).Panic?
    ensures RunAborts(w, TwoTokens(w, x), false, [0], [1])
  {
    hide Emitted, Window, Step;
    ProbeEmits(w, x);
  }

  /** The exact condition over all vocabularies, prompts and token streams: no slice of a run lands off
      a character boundary if and only if the window that the prompt leaves is safe. */
  lemma NoRunAbortsIff(w: seq<byte>)
    ensures SafeWindow(w) <==> forall tk, skip, prompt, ids :: !RunAborts(w, tk, skip, prompt, ids)
  {
    if SafeWindow(w) {
      forall tk, skip, prompt, ids
        ensures !RunAborts(w, tk, skip, prompt, ids)
      {
        hide Window, SafeWindow, Feed;
        if Window(tk, skip, Started(prompt)) == w {
          SafeRun(tk, skip, Started(prompt), ids);
        }
      }
    } else {
      hide RunAborts, Emitted, SafeWindow;
      var x := UnsafeAborts(w);
      ProbeAborts(w, x);
      assert RunAborts(w, TwoTokens(w, x), false, [0], [1]);
    }
  }

  // ----- exactly when text is lost

  /** Completing the unfinished character of the window returns no chunk. */
  lemma CompletionIsStuck(w: seq<byte>) returns (x: seq<byte>)
    requires !Clean(w)
    ensures x != [] && EndsFinished(w + x) && !Emitted(w, x).Chunk?
  {
    hide Lossy, Valid, Clean, EndsWithReplacement;
    var head, c;
    head, c, x := UnfinishedEnd(w);
    EndingDecides(head, c);
    assert |c| == 4 ==> (head + c)[|head| + 3] == c[3];
  }

  /** Every finished continuation of the prompt is returned, whole, exactly when the prompt's window
      leaves no character unfinished. */
  lemma ChunkAtEveryFinishIffClean(w: seq<byte>)
    ensures Clean(w) <==> forall x :: x != [] && EndsFinished(w + x) ==> Probe(w, x) == Chunk(Lossy(x))
  {
    hide Lossy, Valid, Clean, EndsWithReplacement, Probe, IsBoundary;
    if Clean(w) {
      forall x | x != [] && EndsFinished(w + x)
        ensures Probe(w, x) == Chunk(Lossy(x))
      {
        ProbeEmits(w, x);
        LossySplits(w, x);
        LossyIsValid(x);
        BoundaryBetween(Lossy(w), Lossy(x));
        assert (Lossy(w) + Lossy(x))[|Lossy(w)|..] == Lossy(x);
      }
    } else {
      var x := CompletionIsStuck(w);
      ProbeEmits(w, x);
    }
  }

  /** Two bytes of a four-byte character in the prompt and the other two generated, or one byte of a
      two-byte character and another such character behind it: the step aborts. */
  lemma UnfinishedPromptAborts()
    ensures Probe([0xF0, 0x9F], [0x98, 0x80]).Panic? && Probe([0xC3], [0xA9, 0xC3, 0xA9]).Panic?
  {
    hide Emitted, Probe;
    var w: seq<byte>, x: seq<byte> := [0xF0, 0x9F], [0x98, 0x80];
    assert w + x == [0xF0, 0x9F, 0x98, 0x80];
    WholeChar(w + x);
    OpenAborts(w, x);
    ProbeEmits(w, x);
    w, x := [0xC3], [0xA9, 0xC3, 0xA9];
    assert w + x == [0xC3, 0xA9] + [0xC3, 0xA9];
    WholeTwo();
    ValidConcat([0xC3, 0xA9], [0xC3, 0xA9]);
    OpenAborts(w, x);
    ProbeEmits(w, x);
  }

  lemma OpenAborts(w: seq<byte>, x: seq<byte>)
    requires w != [] && Open(w) && Valid(w + x) && Breaks(w + x)
    ensures Emitted(w, x).Panic?
  {
    EmittedAbortsIff(w, x);
  }
}
