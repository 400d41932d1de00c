/** Stop detection on decoded text (lib/tokenizers/src/lib.rs, `StopSequenceDecoder::append_token_id`). */
module StopDecoder {
  import opened Utf8
  import opened ByteDecoder
  import opened Streaming
  import opened TokenSequence

  datatype Output = Text(text: seq<byte>) | Held | Stopped | StoppedWithText(text: seq<byte>) | Refused

  datatype StopRules = StopRules(visibleIds: seq<TokenId>, hiddenIds: seq<TokenId>, hidden: seq<seq<byte>>)

  datatype StopState = StopState(held: seq<byte>, stopped: bool)

  datatype Verdict = NoMatch | Partly | Fully

  /** The first hidden sequence that begins with `state` decides. */
  function Judge(hidden: seq<seq<byte>>, state: seq<byte>): (v: Verdict)
    ensures v.NoMatch? <==> forall h :: h in hidden ==> !(state <= h)
    ensures v.Partly? ==> exists h :: h in hidden && state < h
    ensures v.Fully? ==> state in hidden
  {
    if hidden == [] then NoMatch
    else if state <= hidden[0] then assert hidden[0] in hidden; (if hidden[0] == state then Fully else Partly)
    else
      assert forall h :: h in hidden <==> h == hidden[0] || h in hidden[1..];
      Judge(hidden[1..], state)
  }

  lemma JudgeIsBegins(hidden: seq<seq<byte>>, state: seq<byte>)
    ensures !Judge(hidden, state).NoMatch? <==> Begins(hidden, state)
  {
  }

  /** Takes a token and the text the sequence returned for it. */
  function Accept(rules: StopRules, s: StopState, id: TokenId, text: seq<byte>): (r: (StopState, Output))
    ensures s.stopped <==> r.1.Refused?
    ensures s.stopped ==> r.0 == s
    // Token stops come before sequence stops, and hidden ones before visible ones.
    ensures !s.stopped && id in rules.hiddenIds ==> r == (StopState([], true), Stopped)
    ensures r.1.StoppedWithText? <==> !s.stopped && id in rules.visibleIds && id !in rules.hiddenIds
    // A stop is reported exactly when there is one; text is held or given out with what was held before.
    ensures !s.stopped ==> (r.0.stopped <==> r.1.Stopped? || r.1.StoppedWithText?)
    ensures r.1.Held? ==> r.0.held == s.held + text
    ensures r.1.Text? || r.1.StoppedWithText? ==> r.1.text == s.held + text && r.0.held == []
    ensures r.1.Held? <==> !s.stopped && !IsStopId(rules, id)
                           && Begins(rules.hidden, s.held + text) && !Wins(rules.hidden, s.held + text)
    ensures r.1.Text? <==> !s.stopped && !IsStopId(rules, id) && !Begins(rules.hidden, s.held + text)
  {
    var state := s.held + text;
    JudgeIsWins(rules.hidden, state);
    JudgeIsBegins(rules.hidden, state);
    if s.stopped then (s, Refused)
    else if id in rules.hiddenIds then (StopState([], true), Stopped)
    else if id in rules.visibleIds then (StopState([], true), StoppedWithText(state))
    else match Judge(rules.hidden, state)
      case Fully => (StopState(state, true), Stopped)
      case Partly => (StopState(state, false), Held)
      case NoMatch => (StopState([], false), Text(state))
  }

  // ----- runs

  /** A run: the text received and given out, the state, and the last output. */
  datatype Run = Run(state: StopState, received: seq<byte>, given: seq<byte>, last: Output)

  function Given(o: Output): seq<byte> {
    if o.Text? || o.StoppedWithText? then o.text else []
  }

  function Fold(rules: StopRules, input: seq<(TokenId, seq<byte>)>): Run {
    if input == [] then Run(StopState([], false), [], [], Held)
    else
      var before := Fold(rules, input[..|input| - 1]);
      var (id, text) := input[|input| - 1];
      var (t, o) := Accept(rules, before.state, id, text);
      if o.Refused? then before.(last := o)
      else Run(t, before.received + text, before.given + Given(o), o)
  }

  /** Where every piece of received text is: given out, held, or withheld by the stop. */
  ghost predicate Accounted(rules: StopRules, r: Run) {
    && r.given <= r.received
    && (!r.state.stopped ==>
          && r.given + r.state.held == r.received
          && (r.state.held != [] ==> exists h :: h in rules.hidden && r.state.held < h))
    && (r.state.stopped && r.state.held != [] ==>
          r.state.held in rules.hidden && r.given + r.state.held == r.received)
    && (r.last.StoppedWithText? ==> r.given == r.received)
  }

  lemma AcceptAccounts(rules: StopRules, before: Run, id: TokenId, text: seq<byte>)
    requires Accounted(rules, before) && !before.state.stopped
    ensures var (t, o) := Accept(rules, before.state, id, text);
            !o.Refused? && Accounted(rules, Run(t, before.received + text, before.given + Given(o), o))
  {
    hide Judge;
    var state := before.state.held + text;
    assert before.received + text == before.given + state;
    assert before.given + [] == before.given;
  }

  /** Nothing is lost while the decoder runs: what was given out and what is held join to what was
      received, and only a proper beginning of a hidden sequence is held.  A stop by sequence
      withholds exactly that sequence, and a visible stop token withholds nothing. */
  lemma {:induction false} NothingIsLost(rules: StopRules, input: seq<(TokenId, seq<byte>)>)
    ensures Accounted(rules, Fold(rules, input))
  {
    if input != [] {
      hide Accept;
      var before := Fold(rules, input[..|input| - 1]);
      NothingIsLost(rules, input[..|input| - 1]);
      if before.state.stopped {
        AcceptAfterStop(rules, before.state, input[|input| - 1].0, input[|input| - 1].1);
      } else {
        AcceptAccounts(rules, before, input[|input| - 1].0, input[|input| - 1].1);
      }
    }
  }

  lemma AcceptAfterStop(rules: StopRules, s: StopState, id: TokenId, text: seq<byte>)
    requires s.stopped
    ensures Accept(rules, s, id, text) == (s, Refused)
  {
  }

  /** When the held text grows to a member of a list without nested prefixes, and only then, the
      decoder stops by sequence. */
  ghost predicate PrefixFree(hidden: seq<seq<byte>>) {
    forall g, h :: g in hidden && h in hidden ==> !(g < h)
  }

  lemma StopsIffMember(hidden: seq<seq<byte>>, state: seq<byte>)
    requires PrefixFree(hidden)
    ensures Judge(hidden, state).Fully? <==> state in hidden
  {
  }

  ghost predicate SameVerdict(x: seq<seq<byte>>, y: seq<seq<byte>>, state: seq<byte>) {
    Judge(x, state) == Judge(y, state)
  }

  /** Reordering a list without nested prefixes changes no verdict. */
  lemma ReorderedSameVerdict(hidden: seq<seq<byte>>, other: seq<seq<byte>>, state: seq<byte>)
    requires PrefixFree(hidden) && multiset(other) == multiset(hidden)
    ensures SameVerdict(other, hidden, state)
  {
    assert forall h :: h in other <==> h in multiset(other);
    assert forall h :: h in hidden <==> h in multiset(hidden);
    assert PrefixFree(other);
    StopsIffMember(hidden, state);
    StopsIffMember(other, state);
    hide PrefixFree;
  }

  /** The order of the list is irrelevant for every text exactly when no member begins another. */
  lemma OrderIrrelevantIffPrefixFree(hidden: seq<seq<byte>>)
    ensures PrefixFree(hidden) <==>
            forall other, state :: multiset(other) == multiset(hidden) ==> SameVerdict(other, hidden, state)
  {
    if PrefixFree(hidden) {
      forall other, state | multiset(other) == multiset(hidden)
        ensures SameVerdict(other, hidden, state)
      {
        hide PrefixFree, SameVerdict;
        ReorderedSameVerdict(hidden, other, state);
      }
    } else {
      var g, front, back := OrderMatters(hidden);
      assert !SameVerdict(front, hidden, g) || !SameVerdict(back, hidden, g) by {
        hide Judge;
      }
    }
  }

  /** Two orders of a list with a nested prefix, and a text on which they differ. */
  lemma OrderMatters(hidden: seq<seq<byte>>) returns (g: seq<byte>, front: seq<seq<byte>>, back: seq<seq<byte>>)
    requires !PrefixFree(hidden)
    ensures multiset(front) == multiset(hidden) == multiset(back)
    ensures Judge(front, g).Fully? && Judge(back, g).Partly?
  {
    var h :| h in hidden && exists f :: f in hidden && f < h;
    g :| g in hidden && g < h;
    front := ToFront(hidden, g);
    back := ToFront(hidden, h);
  }

  /** Some reordering puts a given member first. */
  lemma ToFront(hidden: seq<seq<byte>>, h: seq<byte>) returns (other: seq<seq<byte>>)
    requires h in hidden
    ensures other != [] && other[0] == h && multiset(other) == multiset(hidden)
  {
    var i :| 0 <= i < |hidden| && hidden[i] == h;
    other := [h] + hidden[..i] + hidden[i + 1..];
    assert hidden == hidden[..i] + [h] + hidden[i + 1..];
  }

  /** An id that is no stop token. */
  function FreshId(ids: seq<TokenId>): (id: TokenId)
    ensures forall x :: x in ids ==> x < id
  {
    if ids == [] then 0
    else
      var id, last := FreshId(ids[..|ids| - 1]), ids[|ids| - 1];
      assert forall x :: x in ids ==> x in ids[..|ids| - 1] || x == last;
      if last < id then id else last + 1
  }

  lemma {:induction false} SameRuns(rules: StopRules, other: seq<seq<byte>>, input: seq<(TokenId, seq<byte>)>)
    requires PrefixFree(rules.hidden) && multiset(other) == multiset(rules.hidden)
    ensures Fold(rules.(hidden := other), input) == Fold(rules, input)
  {
    if input != [] {
      hide Judge;
      var n := |input| - 1;
      SameRuns(rules, other, input[..n]);
      ReorderedSameVerdict(rules.hidden, other, Fold(rules, input[..n]).state.held + input[n].1);
    }
  }

  lemma FoldOne(rules: StopRules, id: TokenId, text: seq<byte>)
    ensures var (t, o) := Accept(rules, StopState([], false), id, text);
            Fold(rules, [(id, text)]).state == t
  {
    var input := [(id, text)];
    assert input[..0] == [];
  }

  ghost predicate SameRun(rules: StopRules, other: seq<seq<byte>>, input: seq<(TokenId, seq<byte>)>) {
    Fold(rules.(hidden := other), input) == Fold(rules, input)
  }

  lemma RunOrderMatters(rules: StopRules) returns (front: seq<seq<byte>>, back: seq<seq<byte>>, input: seq<(TokenId, seq<byte>)>)
    requires !PrefixFree(rules.hidden)
    ensures multiset(front) == multiset(rules.hidden) == multiset(back)
    ensures Fold(rules.(hidden := front), input) != Fold(rules.(hidden := back), input)
  {
    hide Fold, Judge;
    var g;
    g, front, back := OrderMatters(rules.hidden);
    var id := FreshId(rules.visibleIds + rules.hiddenIds);
    assert id !in rules.visibleIds + rules.hiddenIds;
    assert [] + g == g;
    FoldOne(rules.(hidden := front), id, g);
    FoldOne(rules.(hidden := back), id, g);
    input := [(id, g)];
  }

  /** Over whole inputs too: every reordering of the list gives the same run on every input exactly when
      no member begins another. */
  lemma RunOrderIrrelevantIffPrefixFree(rules: StopRules)
    ensures PrefixFree(rules.hidden) <==>
            forall other, input :: multiset(other) == multiset(rules.hidden) ==> SameRun(rules, other, input)
  {
    hide Fold, PrefixFree;
    if PrefixFree(rules.hidden) {
      forall other, input | multiset(other) == multiset(rules.hidden)
        ensures SameRun(rules, other, input)
      {
        SameRuns(rules, other, input);
      }
    } else {
      var front, back, input := RunOrderMatters(rules);
      assert !SameRun(rules, front, input) || !SameRun(rules, back, input);
    }
  }

  // ----- when a hidden sequence is noticed

  function Texts(input: seq<(TokenId, seq<byte>)>): seq<byte> {
    if input == [] then [] else input[0].1 + Texts(input[1..])
  }

  lemma {:induction false} TextsSnoc(input: seq<(TokenId, seq<byte>)>, last: (TokenId, seq<byte>))
    ensures Texts(input + [last]) == Texts(input) + last.1
  {
    if input == [] {
      assert [last][1..] == [];
      assert Texts([last]) == last.1 + [];
    } else {
      assert (input + [last])[1..] == input[1..] + [last];
      TextsSnoc(input[1..], last);
    }
  }

  predicate IsStopId(rules: StopRules, id: TokenId) {
    id in rules.visibleIds || id in rules.hiddenIds
  }

  ghost predicate Begins(hidden: seq<seq<byte>>, text: seq<byte>) {
    exists h :: h in hidden && text <= h
  }

  /** The pieces where matching begins: the first one, and every one behind the shortest run of pieces,
      counted from where matching began before, whose text begins no hidden sequence. */
  ghost predicate Fresh(hidden: seq<seq<byte>>, input: seq<(TokenId, seq<byte>)>, i: nat)
    requires i <= |input|
  {
    i == 0 ||
    exists m :: 0 <= m < i && Fresh(hidden, input, m) && Discarded(hidden, input, m, i)
  }

  ghost predicate Discarded(hidden: seq<seq<byte>>, input: seq<(TokenId, seq<byte>)>, m: nat, i: nat)
    requires m < i <= |input|
  {
    && !Begins(hidden, Texts(input[m..i]))
    && (forall n :: m < n < i ==> Begins(hidden, Texts(input[m..n])))
  }

  lemma FoldNothing(rules: StopRules, input: seq<(TokenId, seq<byte>)>)
    ensures Fold(rules, input[..0]) == Run(StopState([], false), [], [], Held)
  {
  }

  lemma FoldStep(rules: StopRules, input: seq<(TokenId, seq<byte>)>, k: nat)
    requires k < |input|
    ensures var before, after := Fold(rules, input[..k]).state, Fold(rules, input[..k + 1]).state;
            after == (if before.stopped then before else Accept(rules, before, input[k].0, input[k].1).0)
  {
    assert input[..k + 1][..k] == input[..k] && input[..k + 1][k] == input[k];
  }

  lemma TextsOfSlice(input: seq<(TokenId, seq<byte>)>, i: nat, k: nat)
    requires i <= k < |input|
    ensures Texts(input[i..k + 1]) == Texts(input[i..k]) + input[k].1
  {
    assert input[i..k + 1] == input[i..k] + [input[k]];
    TextsSnoc(input[i..k], input[k]);
  }

  lemma {:induction false} StoppedStays(rules: StopRules, input: seq<(TokenId, seq<byte>)>, j: nat, k: nat)
    requires j <= k <= |input| && Fold(rules, input[..j]).state.stopped
    ensures Fold(rules, input[..k]).state.stopped
  {
    hide Fold, Accept;
    if j < k {
      StoppedStays(rules, input, j, k - 1);
      FoldStep(rules, input, k - 1);
    }
  }

  /** What is held is all the text since matching last began. */
  lemma {:induction false} HeldSince(rules: StopRules, input: seq<(TokenId, seq<byte>)>, k: nat) returns (i: nat)
    requires k <= |input| && !Fold(rules, input[..k]).state.stopped
    ensures i <= k && Fresh(rules.hidden, input, i) && Fold(rules, input[..k]).state.held == Texts(input[i..k])
    ensures forall n :: i < n <= k ==> Begins(rules.hidden, Texts(input[i..n]))
  {
    hide Judge, Fold, Begins, Texts;
    if k == 0 {
      FoldNothing(rules, input);
      NoTexts(input, 0);
      i := 0;
    } else {
      FoldStep(rules, input, k - 1);
      i := HeldSince(rules, input, k - 1);
      TextsOfSlice(input, i, k - 1);
      AcceptWithoutStop(rules, Texts(input[i..k - 1]), input[k - 1].0, input[k - 1].1);
      if !Begins(rules.hidden, Texts(input[i..k])) {
        assert Discarded(rules.hidden, input, i, k);
        i := k;
        NoTexts(input, k);
      }
    }
  }

  lemma AcceptWithoutStop(rules: StopRules, held: seq<byte>, id: TokenId, text: seq<byte>)
    ensures var s := Accept(rules, StopState(held, false), id, text).0;
            s.stopped || s.held == if Begins(rules.hidden, held + text) then held + text else []
  {
    hide Judge;
  }

  /** From where nothing is held, a text that begins a hidden sequence stays held, or has stopped. */
  lemma {:induction false} HeldOrStopped(rules: StopRules, input: seq<(TokenId, seq<byte>)>, i: nat, k: nat, h: seq<byte>)
    requires i <= k <= |input| && Fold(rules, input[..i]).state == StopState([], false)
    requires h in rules.hidden && Texts(input[i..k]) <= h
    ensures var s := Fold(rules, input[..k]).state; s.stopped || s.held == Texts(input[i..k])
  {
    hide Judge, Fold, Texts, Accept;
    if i < k {
      TextsOfSlice(input, i, k - 1);
      HeldOrStopped(rules, input, i, k - 1, h);
      FoldStep(rules, input, k - 1);
      assert Begins(rules.hidden, Texts(input[i..k]));
      AcceptWithoutStop(rules, Texts(input[i..k - 1]), input[k - 1].0, input[k - 1].1);
    } else {
      NoTexts(input, i);
    }
  }

  lemma NoTexts(input: seq<(TokenId, seq<byte>)>, i: nat)
    requires i <= |input|
    ensures Texts(input[i..i]) == []
  {
  }

  /** The text is a hidden sequence, and no earlier one in the list begins with it. */
  ghost predicate Wins(hidden: seq<seq<byte>>, text: seq<byte>) {
    exists n :: 0 <= n < |hidden| && WinsAt(hidden, text, n)
  }

  ghost predicate WinsAt(hidden: seq<seq<byte>>, text: seq<byte>, n: nat)
    requires n < |hidden|
  {
    hidden[n] == text && forall m :: 0 <= m < n ==> !(text <= hidden[m])
  }

  lemma WinsAtShifts(hidden: seq<seq<byte>>, text: seq<byte>, n: nat)
    requires n < |hidden| - 1 && !(text <= hidden[0])
    ensures WinsAt(hidden[1..], text, n) <==> WinsAt(hidden, text, n + 1)
  {
    assert forall m :: 0 < m < |hidden| ==> hidden[m] == hidden[1..][m - 1];
  }

  lemma {:induction false} JudgeIsWins(hidden: seq<seq<byte>>, text: seq<byte>)
    ensures Judge(hidden, text).Fully? <==> Wins(hidden, text)
  {
    if hidden != [] && text <= hidden[0] {
      assert WinsAt(hidden, text, 0) <==> hidden[0] == text;
      assert forall n :: 0 < n < |hidden| ==> !WinsAt(hidden, text, n);
    } else if hidden != [] {
      assert !WinsAt(hidden, text, 0);
      JudgeIsWins(hidden[1..], text);
      forall n | 0 <= n < |hidden| - 1
        ensures WinsAt(hidden[1..], text, n) <==> WinsAt(hidden, text, n + 1)
      {
        WinsAtShifts(hidden, text, n);
      }
      hide WinsAt;
      if n :| 0 <= n < |hidden| && WinsAt(hidden, text, n) {
        assert WinsAt(hidden[1..], text, n - 1);
      }
    }
  }

  /** A piece that completes a winning text to what is held stops the decoder, and without stop tokens
      nothing else does. */
  lemma AcceptStopsIff(rules: StopRules, held: seq<byte>, id: TokenId, text: seq<byte>)
    ensures Accept(rules, StopState(held, false), id, text).0.stopped
            <==> IsStopId(rules, id) || Wins(rules.hidden, held + text)
  {
    JudgeIsWins(rules.hidden, held + text);
    hide Judge, Wins;
  }

  /** Where the decoder stopped by sequence. */
  lemma {:induction false} NoticedAt(rules: StopRules, input: seq<(TokenId, seq<byte>)>, k: nat)
    returns (i: nat, j: nat)
    requires k <= |input| && Fold(rules, input[..k]).state.stopped
    requires forall n :: 0 <= n < |input| ==> !IsStopId(rules, input[n].0)
    ensures i < j <= k && Fresh(rules.hidden, input, i) && Wins(rules.hidden, Texts(input[i..j]))
  {
    hide Fold, Accept, Texts, Fresh, Begins, Wins;
    FoldNothing(rules, input);
    FoldStep(rules, input, k - 1);
    if Fold(rules, input[..k - 1]).state.stopped {
      i, j := NoticedAt(rules, input, k - 1);
    } else {
      i := HeldSince(rules, input, k - 1);
      j := k;
      TextsOfSlice(input, i, k - 1);
      AcceptStopsIff(rules, Texts(input[i..k - 1]), input[k - 1].0, input[k - 1].1);
    }
  }

  /** Where matching begins nothing is held, unless the decoder has stopped before. */
  lemma {:induction false} FreshHoldsNothing(rules: StopRules, input: seq<(TokenId, seq<byte>)>, i: nat)
    requires i <= |input| && Fresh(rules.hidden, input, i)
    ensures var s := Fold(rules, input[..i]).state; s.stopped || s == StopState([], false)
  {
    hide Fold, Texts, Begins, Accept;
    if i == 0 {
      FoldNothing(rules, input);
    } else {
      var m :| 0 <= m < i && Fresh(rules.hidden, input, m) && Discarded(rules.hidden, input, m, i);
      FreshHoldsNothing(rules, input, m);
      if Fold(rules, input[..m]).state.stopped {
        StoppedStays(rules, input, m, i);
      } else {
        HeldBeforeDiscard(rules, input, m, i);
        FoldStep(rules, input, i - 1);
        TextsOfSlice(input, m, i - 1);
        AcceptWithoutStop(rules, Texts(input[m..i - 1]), input[i - 1].0, input[i - 1].1);
      }
    }
  }

  lemma HeldBeforeDiscard(rules: StopRules, input: seq<(TokenId, seq<byte>)>, m: nat, i: nat)
    requires m < i <= |input| && Discarded(rules.hidden, input, m, i)
    requires Fold(rules, input[..m]).state == StopState([], false)
    ensures var s := Fold(rules, input[..i - 1]).state; s.stopped || s.held == Texts(input[m..i - 1])
  {
    hide Fold, Texts;
    if m == i - 1 {
      NoTexts(input, m);
    } else {
      var h :| h in rules.hidden && Texts(input[m..i - 1]) <= h;
      HeldOrStopped(rules, input, m, i - 1, h);
    }
  }

  lemma {:induction false} StopIdStops(rules: StopRules, input: seq<(TokenId, seq<byte>)>, n: nat)
    requires n < |input| && IsStopId(rules, input[n].0)
    ensures Fold(rules, input).state.stopped
  {
    hide Fold, Judge;
    FoldStep(rules, input, n);
    StoppedStays(rules, input, n + 1, |input|);
    assert input[..|input|] == input;
  }

  /** From where matching begins, a winning text made of whole pieces stops the decoder. */
  lemma WinningStops(rules: StopRules, input: seq<(TokenId, seq<byte>)>, i: nat, j: nat)
    requires i < j <= |input| && Fresh(rules.hidden, input, i) && Wins(rules.hidden, Texts(input[i..j]))
    ensures Fold(rules, input[..j]).state.stopped
  {
    hide Fold, Texts, Fresh, Accept;
    FreshHoldsNothing(rules, input, i);
    if Fold(rules, input[..i]).state.stopped {
      StoppedStays(rules, input, i, j);
    } else {
      TextsOfSlice(input, i, j - 1);
      HeldOrStopped(rules, input, i, j - 1, Texts(input[i..j]));
      FoldStep(rules, input, j - 1);
      AcceptStopsIff(rules, Texts(input[i..j - 1]), input[j - 1].0, input[j - 1].1);
    }
  }

  /** The exact condition, for all rules and inputs: the decoder stops if and only if a stop token arrives,
      or whole pieces, counted from one where matching begins, join to a hidden sequence that no earlier
      one in the list begins with. */
  lemma StopsIffNoticed(rules: StopRules, input: seq<(TokenId, seq<byte>)>)
    ensures Fold(rules, input).state.stopped <==>
            || (exists n :: 0 <= n < |input| && IsStopId(rules, input[n].0))
            || (exists i, j :: 0 <= i < j <= |input| && Fresh(rules.hidden, input, i) && Wins(rules.hidden, Texts(input[i..j])))
  {
    hide Fold, Fresh, IsStopId, Wins, Texts;
    assert input[..|input|] == input;
    if n :| 0 <= n < |input| && IsStopId(rules, input[n].0) {
      StopIdStops(rules, input, n);
    } else if Fold(rules, input).state.stopped {
      var i, j := NoticedAt(rules, input, |input|);
    }
    if i, j :| 0 <= i < j <= |input| && Fresh(rules.hidden, input, i) && Wins(rules.hidden, Texts(input[i..j])) {
      WinningStops(rules, input, i, j);
      StoppedStays(rules, input, j, |input|);
    }
  }

  /** In a list without nested prefixes every hidden sequence wins. */
  lemma PrefixFreeMembersWin(hidden: seq<seq<byte>>, text: seq<byte>)
    requires PrefixFree(hidden)
    ensures Wins(hidden, text) <==> text in hidden
  {
    JudgeIsWins(hidden, text);
    StopsIffMember(hidden, text);
    hide Judge, Wins;
  }

  /** "a", "aa", "aaa", "b" and "aab", with "aab" as the only hidden sequence. */
  const A: seq<byte> := [0x61]
  const AA: seq<byte> := [0x61, 0x61]
  const AAA: seq<byte> := [0x61, 0x61, 0x61]
  const B: seq<byte> := [0x62]
  const AAB: seq<byte> := [0x61, 0x61, 0x62]
  const HIDE_AAB: StopRules := StopRules([], [], [AAB])

  lemma OverlapSteps()
    ensures Accept(HIDE_AAB, StopState([], false), 0, A) == (StopState(A, false), Held)
    ensures Accept(HIDE_AAB, StopState(A, false), 0, A) == (StopState(AA, false), Held)
    ensures Accept(HIDE_AAB, StopState(AA, false), 0, A) == (StopState([], false), Text(AAA))
    ensures Accept(HIDE_AAB, StopState([], false), 0, B) == (StopState([], false), Text(B))
  {
    assert [] + A == A && A + A == AA && AA + A == AAA && [] + B == B;
    assert A <= AAB && AA <= AAB && A != AAB && AA != AAB;
    assert AAA[2] != AAB[2] && B[0] != AAB[0];
  }

  /** That beginning and ending with pieces is not enough: with "aab" hidden, the pieces "a", "a", "a", "b"
      are all given out, because matching begins again behind the third one. */
  lemma OverlapGoesUnnoticed(input: seq<(TokenId, seq<byte>)>)
    requires input == [(0, A), (0, A), (0, A), (0, B)]
    ensures Texts(input[1..4]) == AAB
    ensures !Fold(HIDE_AAB, input).state.stopped && Fold(HIDE_AAB, input).given == AAA + B
  {
    hide Accept, Judge, Fold, Texts, Wins, Begins, IsStopId;
    NoTexts(input, 1);
    TextsOfSlice(input, 1, 1);
    TextsOfSlice(input, 1, 2);
    TextsOfSlice(input, 1, 3);
    assert [] + A + A + B == AAB;
    OverlapSteps();
    FoldNothing(HIDE_AAB, input);
    FoldTo(HIDE_AAB, input, 0);
    FoldTo(HIDE_AAB, input, 1);
    FoldTo(HIDE_AAB, input, 2);
    FoldTo(HIDE_AAB, input, 3);
    assert input[..4] == input;
  }

  lemma FoldTo(rules: StopRules, input: seq<(TokenId, seq<byte>)>, k: nat)
    requires k < |input|
    ensures var before := Fold(rules, input[..k]);
            var (t, o) := Accept(rules, before.state, input[k].0, input[k].1);
            Fold(rules, input[..k + 1]) ==
              if o.Refused? then before.(last := o)
              else Run(t, before.received + input[k].1, before.given + Given(o), o)
  {
    assert input[..k + 1][..k] == input[..k] && input[..k + 1][k] == input[k];
  }

  // ----- the decoder on top of a token sequence

  /** The pieces the sequence returns for `ids`, one per token. */
  function Pieces(tk: Tokenizer, s: Stream, ids: seq<TokenId>): seq<(TokenId, seq<byte>)>
    requires Offsets(s)
    decreases |ids|
  {
    if ids == [] then []
    else
      var (t, piece) := Append(tk, s, ids[0]);
      [(ids[0], piece)] + Pieces(tk, t, ids[1..])
  }

  lemma {:induction false} PiecesJoin(tk: Tokenizer, s: Stream, ids: seq<TokenId>)
    requires Offsets(s)
    ensures Texts(Pieces(tk, s, ids)) == AppendAll(tk, s, ids).1
    decreases |ids|
  {
    if ids != [] {
      hide Append;
      var (t, piece) := Append(tk, s, ids[0]);
      PiecesJoin(tk, t, ids[1..]);
      assert Pieces(tk, s, ids)[1..] == Pieces(tk, t, ids[1..]);
    }
  }

  lemma {:induction false} RunningReceivesAll(rules: StopRules, input: seq<(TokenId, seq<byte>)>)
    requires !Fold(rules, input).state.stopped
    ensures Fold(rules, input).received == Texts(input)
  {
    if input != [] {
      var n := |input| - 1;
      RunningReceivesAll(rules, input[..n]);
      TextsSnoc(input[..n], input[n]);
      assert input == input[..n] + [input[n]];
    }
  }

  /** End to end, for every token stream and all stop rules: as long as the decoder has not stopped,
      the text given out followed by the text held is the decoding of the tokens read so far without
      U+FFFD, and the held text is a proper beginning of a hidden sequence. */
  lemma DecoderEqualsDecode(tk: Tokenizer, rules: StopRules, ids: seq<TokenId>)
    requires !Fold(rules, Pieces(tk, TokenSequence.EMPTY, ids)).state.stopped
    ensures var r, s := Fold(rules, Pieces(tk, TokenSequence.EMPTY, ids)), AppendAll(tk, TokenSequence.EMPTY, ids).0;
            && Offsets(s) && s.ids == ids
            && r.given + r.state.held == Stripped(Lossy(Bytes(tk, ids[..s.read], false)))
            && (r.state.held != [] ==> exists h :: h in rules.hidden && r.state.held < h)
  {
    hide Lossy, Stripped, Fold, AppendAll, Pieces;
    var input := Pieces(tk, TokenSequence.EMPTY, ids);
    NothingIsLost(rules, input);
    RunningReceivesAll(rules, input);
    PiecesJoin(tk, TokenSequence.EMPTY, ids);
    SequenceEqualsDecode(tk, ids);
  }

  lemma PiecesUnfold(tk: Tokenizer, s: Stream, ids: seq<TokenId>)
    requires Offsets(s) && ids != []
    ensures var (t, piece) := Append(tk, s, ids[0]);
            Offsets(t) && Pieces(tk, s, ids) == [(ids[0], piece)] + Pieces(tk, t, ids[1..])
  {
  }

  lemma NoPieces(tk: Tokenizer, s: Stream)
    requires Offsets(s)
    ensures Pieces(tk, s, []) == []
  {
  }

  lemma {:induction false} PieceOfEach(tk: Tokenizer, s: Stream, ids: seq<TokenId>)
    requires Offsets(s)
    ensures |Pieces(tk, s, ids)| == |ids|
    ensures forall i :: 0 <= i < |ids| ==> Pieces(tk, s, ids)[i].0 == ids[i]
    decreases |ids|
  {
    hide Append, Pieces;
    if ids == [] {
      NoPieces(tk, s);
    } else {
      PiecesUnfold(tk, s, ids);
      PieceOfEach(tk, Append(tk, s, ids[0]).0, ids[1..]);
    }
  }

  lemma {:induction false} PiecesPrefix(tk: Tokenizer, s: Stream, ids: seq<TokenId>, n: nat)
    requires Offsets(s) && n <= |ids| == |Pieces(tk, s, ids)|
    ensures Pieces(tk, s, ids[..n]) == Pieces(tk, s, ids)[..n]
    decreases |ids|
  {
    hide Append, Pieces;
    if n == 0 {
      NoPieces(tk, s);
      assert ids[..0] == [];
    } else {
      PiecesUnfold(tk, s, ids);
      PiecesUnfold(tk, s, ids[..n]);
      var (t, piece) := Append(tk, s, ids[0]);
      PieceOfEach(tk, t, ids[1..]);
      PiecesPrefix(tk, t, ids[1..], n - 1);
      assert ids[..n][1..] == ids[1..][..n - 1];
      FirstOfBoth((ids[0], piece), Pieces(tk, t, ids[1..]), n);
    }
  }

  lemma FirstOfBoth(x: (TokenId, seq<byte>), rest: seq<(TokenId, seq<byte>)>, n: nat)
    requires 0 < n <= |rest| + 1
    ensures ([x] + rest)[..n] == [x] + rest[..n - 1]
  {
  }

  /** The first token at which a run has stopped. */
  lemma {:induction false} FirstStop(rules: StopRules, input: seq<(TokenId, seq<byte>)>, k: nat) returns (n: nat)
    requires k <= |input| && Fold(rules, input[..k]).state.stopped
    ensures 0 < n <= k && !Fold(rules, input[..n - 1]).state.stopped && Fold(rules, input[..n]).state.stopped
    ensures var r, end := Fold(rules, input[..n]), Fold(rules, input[..k]);
            end.state == r.state && end.received == r.received && end.given == r.given
  {
    hide Fold;
    FoldNothing(rules, input);
    if Fold(rules, input[..k - 1]).state.stopped {
      n := FirstStop(rules, input, k - 1);
      FoldTo(rules, input, k - 1);
      AcceptAfterStop(rules, Fold(rules, input[..k - 1]).state, input[k - 1].0, input[k - 1].1);
    } else {
      n := k;
    }
  }

  /** What a run has received and given out when it stops, by the token that stops it. */
  lemma StopReceives(rules: StopRules, input: seq<(TokenId, seq<byte>)>, n: nat)
    requires 0 < n <= |input| && !Fold(rules, input[..n - 1]).state.stopped && Fold(rules, input[..n]).state.stopped
    ensures var r, id := Fold(rules, input[..n]), input[n - 1].0;
            && r.received == Texts(input[..n])
            && (id in rules.hiddenIds ==> r.given <= r.received && r.state.held == [])
            && (id in rules.visibleIds && id !in rules.hiddenIds ==> r.given == r.received && r.state.held == [])
            && (!IsStopId(rules, id) ==> r.given + r.state.held == r.received && r.state.held in rules.hidden)
  {
    hide Fold, Judge;
    var before := Fold(rules, input[..n - 1]);
    FoldTo(rules, input, n - 1);
    RunningReceivesAll(rules, input[..n - 1]);
    TextsSnoc(input[..n - 1], input[n - 1]);
    assert input[..n] == input[..n - 1] + [input[n - 1]];
    NothingIsLost(rules, input[..n - 1]);
    assert before.given + before.state.held == before.received;
    assert before.received + input[n - 1].1 == before.given + (before.state.held + input[n - 1].1);
    assert before.given + [] == before.given;
  }

  /** End to end at a stop: everything received up to the stopping token is the decoding of the tokens read
      by then without U+FFFD.  A sequence stop has given out all of it but the hidden sequence it
      withholds, a visible stop token all of it, and a hidden one a beginning of it; and no later token
      changes this. */
  lemma DecoderAtStop(tk: Tokenizer, rules: StopRules, ids: seq<TokenId>) returns (n: nat)
    requires Fold(rules, Pieces(tk, TokenSequence.EMPTY, ids)).state.stopped
    ensures 0 < n <= |ids|
    ensures var r, s := Fold(rules, Pieces(tk, TokenSequence.EMPTY, ids)), AppendAll(tk, TokenSequence.EMPTY, ids[..n]).0;
            && Offsets(s) && s.ids == ids[..n]
            && r.received == Stripped(Lossy(Bytes(tk, ids[..s.read], false)))
            && (!IsStopId(rules, ids[n - 1]) ==> r.given + r.state.held == r.received && r.state.held in rules.hidden)
            && (ids[n - 1] in rules.visibleIds && ids[n - 1] !in rules.hiddenIds ==> r.given == r.received)
            && (ids[n - 1] in rules.hiddenIds ==> r.given <= r.received)
  {
    hide Lossy, Stripped, Fold, AppendAll, Pieces, IsStopId;
    var input := Pieces(tk, TokenSequence.EMPTY, ids);
    PieceOfEach(tk, TokenSequence.EMPTY, ids);
    assert input[..|input|] == input;
    n := FirstStop(rules, input, |input|);
    StopReceives(rules, input, n);
    PiecesPrefix(tk, TokenSequence.EMPTY, ids, n);
    PiecesJoin(tk, TokenSequence.EMPTY, ids[..n]);
    SequenceEqualsDecode(tk, ids[..n]);
    var s := AppendAll(tk, TokenSequence.EMPTY, ids[..n]).0;
    assert ids[..n][..s.read] == ids[..s.read];
  }
}
