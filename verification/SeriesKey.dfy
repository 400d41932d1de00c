/** The text key by which duplicate series are recognised (lib/runtime/src/metrics.rs,
    `series_dedup_key` and the label sort before it). */
module SeriesKey {

  type Label = (string, string)

  // ----- order on strings and labels

  predicate Less(a: string, b: string) {
    b != [] && (a == [] || a[0] < b[0] || (a[0] == b[0] && Less(a[1..], b[1..])))
  }

  lemma {:induction false} LessIsTotal(a: string, b: string)
    ensures a == b || Less(a, b) || Less(b, a)
    ensures !(Less(a, b) && Less(b, a)) && (a == b ==> !Less(a, b))
  {
    if a != [] && b != [] && a[0] == b[0] {
      LessIsTotal(a[1..], b[1..]);
      assert a == [a[0]] + a[1..] && b == [b[0]] + b[1..];
    }
  }

  lemma {:induction false} LessIsTransitive(a: string, b: string, c: string)
    requires Less(a, b) && Less(b, c)
    ensures Less(a, c)
    decreases |a|
  {
    if a != [] && a[0] == b[0] == c[0] {
      LessIsTransitive(a[1..], b[1..], c[1..]);
    }
  }

  /** `a` and `b` agree on their first `n` characters, and then `a` ends or has the smaller character. */
  ghost predicate DifferAt(a: string, b: string, n: nat) {
    n <= |a| && n < |b| && a[..n] == b[..n] && (n == |a| || a[n] < b[n])
  }

  lemma AgreeBefore(a: string, b: string, n: nat)
    requires DifferAt(a, b, n)
    ensures forall i :: 0 <= i < n ==> a[i] == b[i]
  {
    assert forall i :: 0 <= i < n ==> a[i] == a[..n][i] && b[i] == b[..n][i];
  }

  /** The order is the lexicographic one. */
  lemma {:induction false} LessIff(a: string, b: string)
    ensures Less(a, b) <==> exists n: nat :: DifferAt(a, b, n)
  {
    if a != [] && b != [] && a[0] == b[0] {
      LessIff(a[1..], b[1..]);
      if n: nat :| DifferAt(a[1..], b[1..], n) {
        assert a[..n + 1] == [a[0]] + a[1..][..n] && b[..n + 1] == [b[0]] + b[1..][..n];
        assert DifferAt(a, b, n + 1);
      }
      if n: nat :| DifferAt(a, b, n) {
        assert a[1..][..n - 1] == a[..n][1..] && b[1..][..n - 1] == b[..n][1..];
        assert DifferAt(a[1..], b[1..], n - 1);
      }
    } else {
      if Less(a, b) {
        assert DifferAt(a, b, 0);
      }
      if n: nat :| DifferAt(a, b, n) {
        AgreeBefore(a, b, n);
      }
    }
  }

  /** Labels compare by name, then by value. */
  predicate AtMost(x: Label, y: Label) {
    x == y || Less(x.0, y.0) || (x.0 == y.0 && Less(x.1, y.1))
  }

  lemma AtMostIsTotalOrder(x: Label, y: Label, z: Label)
    ensures AtMost(x, y) || AtMost(y, x)
    ensures AtMost(x, y) && AtMost(y, x) ==> x == y
    ensures AtMost(x, y) && AtMost(y, z) ==> AtMost(x, z)
  {
    LessIsTotal(x.0, y.0);
    LessIsTotal(x.1, y.1);
    if AtMost(x, y) && AtMost(y, z) {
      if Less(x.0, y.0) && Less(y.0, z.0) {
        LessIsTransitive(x.0, y.0, z.0);
      }
      if Less(x.1, y.1) && Less(y.1, z.1) {
        LessIsTransitive(x.1, y.1, z.1);
      }
    }
  }

  // ----- sorting

  ghost predicate IsSorted(s: seq<Label>) {
    forall i, j :: 0 <= i < j < |s| ==> AtMost(s[i], s[j])
  }

  function Insert(x: Label, s: seq<Label>): (r: seq<Label>)
    ensures multiset(r) == multiset(s) + multiset{x}
  {
    if s == [] || AtMost(x, s[0]) then [x] + s
    else
      assert s == [s[0]] + s[1..];
      [s[0]] + Insert(x, s[1..])
  }

  lemma {:induction false} InsertKeepsSorted(x: Label, s: seq<Label>)
    requires IsSorted(s)
    ensures IsSorted(Insert(x, s))
  {
    hide Less;
    if s != [] && AtMost(x, s[0]) {
      forall j | 0 < j <= |s|
        ensures AtMost(x, ([x] + s)[j])
      {
        AtMostIsTotalOrder(x, s[0], s[j - 1]);
      }
    } else if s != [] {
      InsertKeepsSorted(x, s[1..]);
      var r := Insert(x, s[1..]);
      forall j | 0 <= j < |r|
        ensures AtMost(s[0], r[j])
      {
        AtMostIsTotalOrder(x, s[0], s[0]);
        assert r[j] in multiset(r);
        if r[j] != x {
          assert r[j] in multiset(s[1..]);
          var i :| 0 <= i < |s[1..]| && s[1..][i] == r[j];
          assert s[i + 1] == r[j];
        }
      }
    }
  }

  /** `labels.sort_by(...)`. */
  function Sorted(s: seq<Label>): (r: seq<Label>)
    ensures multiset(r) == multiset(s)
  {
    if s == [] then []
    else
      assert s == [s[0]] + s[1..];
      Insert(s[0], Sorted(s[1..]))
  }

  lemma {:induction false} SortedIsSorted(s: seq<Label>)
    ensures IsSorted(Sorted(s))
  {
    if s != [] {
      SortedIsSorted(s[1..]);
      InsertKeepsSorted(s[0], Sorted(s[1..]));
    }
  }

  lemma LeastIsFirst(x: seq<Label>, y: seq<Label>)
    requires IsSorted(x) && IsSorted(y) && x != [] && y != [] && multiset(x) == multiset(y)
    ensures x[0] == y[0]
  {
    assert y[0] in multiset(x);
    var j :| 0 <= j < |x| && x[j] == y[0];
    assert AtMost(x[0], y[0]);
    assert x[0] in multiset(y);
    var i :| 0 <= i < |y| && y[i] == x[0];
    assert AtMost(y[0], x[0]);
    AtMostIsTotalOrder(x[0], y[0], y[0]);
  }

  /** A sorted list is determined by its content. */
  lemma {:induction false} SortedUnique(x: seq<Label>, y: seq<Label>)
    requires IsSorted(x) && IsSorted(y) && multiset(x) == multiset(y)
    ensures x == y
  {
    hide AtMost;
    assert |multiset(x)| == |x| && |multiset(y)| == |y|;
    if x != [] {
      LeastIsFirst(x, y);
      WithoutFirst(x);
      WithoutFirst(y);
      SortedUnique(x[1..], y[1..]);
    }
  }

  lemma WithoutFirst(x: seq<Label>)
    requires x != []
    ensures x == [x[0]] + x[1..]
    ensures multiset(x[1..]) == multiset(x) - multiset{x[0]}
  {
    assert x == [x[0]] + x[1..];
  }

  lemma SortedIffSameLabels(x: seq<Label>, y: seq<Label>)
    ensures Sorted(x) == Sorted(y) <==> multiset(x) == multiset(y)
  {
    if multiset(x) == multiset(y) {
      SortedIsSorted(x);
      SortedIsSorted(y);
      SortedUnique(Sorted(x), Sorted(y));
    }
  }

  // ----- rendering

  function Item(l: Label): string { l.0 + "=" + l.1 }

  function Joined(labels: seq<Label>): string {
    if labels == [] then ""
    else if |labels| == 1 then Item(labels[0])
    else Item(labels[0]) + "," + Joined(labels[1..])
  }

  function Key(name: string, labels: seq<Label>): string {
    name + "|" + Joined(labels)
  }

  /** Two texts that are cut at the first occurrence of a separator. */
  lemma CutAtFirst(a: string, x: string, b: string, y: string, sep: char)
    requires sep !in a && sep !in b
    requires a + [sep] + x == b + [sep] + y
    ensures a == b && x == y
  {
    var t := a + [sep] + x;
    assert t[|a|] == sep && t[|b|] == sep;
    assert forall i | 0 <= i < |a| :: t[i] == a[i];
    assert forall i | 0 <= i < |b| :: t[i] == b[i];
    assert t[..|a|] == a && t[..|b|] == b && t[|a| + 1..] == x && t[|b| + 1..] == y;
  }

  /** Label names are free of the two separators, as the Prometheus grammar demands. */
  ghost predicate CleanNames(labels: seq<Label>) {
    forall i :: 0 <= i < |labels| ==> '=' !in labels[i].0 && ',' !in labels[i].0
  }

  /** `s` begins like a label: a name free of separators and an equals sign. */
  predicate StartsLabel(s: string) {
    s != [] && (s[0] == '=' || (s[0] != ',' && StartsLabel(s[1..])))
  }

  /** The position of the first comma that is followed by the beginning of a label, or the end. */
  function FirstCut(s: string): (n: nat)
    ensures n <= |s|
    ensures n < |s| ==> s[n] == ',' && StartsLabel(s[n + 1..])
  {
    if s == [] || (s[0] == ',' && StartsLabel(s[1..])) then 0
    else
      var n := FirstCut(s[1..]);
      assert n < |s[1..]| ==> s[1..][n + 1..] == s[n + 2..];
      1 + n
  }

  /** The text embeds nothing that reads like a further label. */
  predicate CutFree(value: string) { FirstCut(value) == |value| }

  ghost predicate CutFreeLabels(labels: seq<Label>) {
    CleanNames(labels) && forall i :: 0 <= i < |labels| ==> CutFree(labels[i].1)
  }

  /** In particular a value without a comma is free of cuts. */
  lemma {:induction false} NoCommaNoCut(value: string)
    requires ',' !in value
    ensures CutFree(value)
  {
    if value != [] {
      NoCommaNoCut(value[1..]);
    }
  }

  lemma {:induction false} StartsLabelStops(a: string, b: string)
    requires b != [] ==> b[0] == ','
    ensures StartsLabel(a + b) == StartsLabel(a)
  {
    if a == [] {
      assert a + b == b;
    } else {
      assert (a + b)[1..] == a[1..] + b;
      StartsLabelStops(a[1..], b);
    }
  }

  lemma {:induction false} FirstCutAt(value: string, tail: string)
    requires CutFree(value)
    requires tail != [] ==> tail[0] == ',' && StartsLabel(tail[1..])
    ensures FirstCut(value + tail) == |value|
  {
    if value == [] {
      assert value + tail == tail;
    } else {
      assert (value + tail)[1..] == value[1..] + tail;
      StartsLabelStops(value[1..], tail);
      FirstCutAt(value[1..], tail);
    }
  }

  lemma {:induction false} NameStartsLabel(name: string, rest: string)
    requires '=' !in name && ',' !in name
    ensures StartsLabel(name + "=" + rest)
  {
    var s := name + "=" + rest;
    if name != [] {
      NameStartsLabel(name[1..], rest);
      assert s[1..] == name[1..] + "=" + rest;
    }
  }

  /** What follows the value of the first label. */
  function Tail(x: seq<Label>): string
    requires x != []
  {
    if |x| == 1 then "" else "," + Joined(x[1..])
  }

  lemma JoinedUnfolds(x: seq<Label>)
    requires x != [] && CleanNames(x)
    ensures Joined(x) == x[0].0 + "=" + (x[0].1 + Tail(x))
    ensures StartsLabel(Joined(x))
    ensures Tail(x) != [] ==> Tail(x)[0] == ',' && Tail(x)[1..] == Joined(x[1..]) && StartsLabel(Tail(x)[1..])
  {
    assert Joined(x) == x[0].0 + "=" + (x[0].1 + Tail(x));
    NameStartsLabel(x[0].0, x[0].1 + Tail(x));
    if |x| > 1 {
      assert Joined(x[1..]) == x[1].0 + "=" + (x[1].1 + Tail(x[1..]));
      NameStartsLabel(x[1].0, x[1].1 + Tail(x[1..]));
    }
  }

  lemma SameFirstLabel(x: seq<Label>, y: seq<Label>)
    requires CutFreeLabels(x) && CutFreeLabels(y) && Joined(x) == Joined(y)
    requires x != [] && y != []
    ensures x[0] == y[0] && Joined(x[1..]) == Joined(y[1..])
  {
    hide Joined, CutFree, FirstCut, StartsLabel, Tail;
    JoinedUnfolds(x);
    JoinedUnfolds(y);
    CutAtFirst(x[0].0, x[0].1 + Tail(x), y[0].0, y[0].1 + Tail(y), '=');
    FirstCutAt(x[0].1, Tail(x));
    FirstCutAt(y[0].1, Tail(y));
    SplitAt(x[0].1, Tail(x), y[0].1, Tail(y));
    TailsAgree(x, y);
  }

  /** Lists whose values are free of cuts are recovered from their rendering. */
  lemma {:induction false} JoinedInjective(x: seq<Label>, y: seq<Label>)
    requires CutFreeLabels(x) && CutFreeLabels(y) && Joined(x) == Joined(y)
    ensures x == y
  {
    hide Joined, CutFree, StartsLabel;
    if x != [] && y != [] {
      SameFirstLabel(x, y);
      JoinedInjective(x[1..], y[1..]);
      assert x == [x[0]] + x[1..] && y == [y[0]] + y[1..];
    } else {
      JoinedEmpty(x);
      JoinedEmpty(y);
    }
  }

  lemma JoinedEmpty(x: seq<Label>)
    ensures Joined(x) == "" <==> x == []
  {
  }

  lemma SplitAt(a: string, x: string, b: string, y: string)
    requires a + x == b + y && |a| == |b|
    ensures a == b && x == y
  {
    assert a == (a + x)[..|a|] && b == (b + y)[..|b|];
    assert x == (a + x)[|a|..] && y == (b + y)[|b|..];
  }

  lemma TailsAgree(x: seq<Label>, y: seq<Label>)
    requires x != [] && y != [] && Tail(x) == Tail(y)
    ensures Joined(x[1..]) == Joined(y[1..])
  {
    if |x| > 1 {
      assert Tail(x)[1..] == Joined(x[1..]) && Tail(y)[1..] == Joined(y[1..]);
    }
  }

  /** Family names without a bar are recovered from the key. */
  lemma KeyDeterminesName(name: string, labels: seq<Label>, name': string, labels': seq<Label>)
    requires '|' !in name && '|' !in name'
    requires Key(name, labels) == Key(name', labels')
    ensures name == name' && Joined(labels) == Joined(labels')
  {
    CutAtFirst(name, Joined(labels), name', Joined(labels'), '|');
  }

  /** The key of a series is its name and its labels, in whatever order they came: duplicate
      detection drops true duplicates and nothing else, as long as no label value embeds text that
      reads like a further label. */
  lemma KeyIffSameSeries(name: string, labels: seq<Label>, name': string, labels': seq<Label>)
    requires '|' !in name && '|' !in name'
    requires CutFreeLabels(labels) && CutFreeLabels(labels')
    ensures Key(name, Sorted(labels)) == Key(name', Sorted(labels'))
            <==> name == name' && multiset(labels) == multiset(labels')
  {
    SortedIffSameLabels(labels, labels');
    if Key(name, Sorted(labels)) == Key(name', Sorted(labels')) {
      KeyDeterminesName(name, Sorted(labels), name', Sorted(labels'));
      CutFreeStays(labels, Sorted(labels));
      CutFreeStays(labels', Sorted(labels'));
      JoinedInjective(Sorted(labels), Sorted(labels'));
    }
  }

  lemma CutFreeStays(labels: seq<Label>, sorted: seq<Label>)
    requires CutFreeLabels(labels) && multiset(sorted) == multiset(labels)
    ensures CutFreeLabels(sorted)
  {
    forall i | 0 <= i < |sorted|
      ensures '=' !in sorted[i].0 && ',' !in sorted[i].0 && CutFree(sorted[i].1)
    {
      assert sorted[i] in multiset(labels);
      var j :| 0 <= j < |labels| && labels[j] == sorted[i];
    }
  }

  /** Every value that embeds `,name=` renders like the list in which that text is a label of its own. */
  lemma {:induction false} EmbeddedLabelCollides(before: seq<Label>, l: Label, name: string, value: string, after: seq<Label>)
    ensures Joined(before + [(l.0, l.1 + "," + name + "=" + value)] + after)
         == Joined(before + [l, (name, value)] + after)
  {
    var fat: Label := (l.0, l.1 + "," + name + "=" + value);
    if before != [] {
      var x, y := before + [fat] + after, before + [l, (name, value)] + after;
      assert x[1..] == before[1..] + [fat] + after;
      assert y[1..] == before[1..] + [l, (name, value)] + after;
      EmbeddedLabelCollides(before[1..], l, name, value, after);
    } else {
      var x, y := [fat] + after, [l, (name, value)] + after;
      assert before + [fat] + after == x && before + [l, (name, value)] + after == y;
      assert y[1..] == [(name, value)] + after && y[1..][1..] == after && x[1..] == after;
      assert Item(fat) == Item(l) + "," + Item((name, value));
    }
  }

  // ----- the exact condition

  /** Reads text that begins like a label: the name up to the equals sign, and the rest. */
  function LabelAt(s: string): (l: Label)
    requires StartsLabel(s)
    ensures s == Item(l) && '=' !in l.0 && ',' !in l.0
  {
    if s[0] == '=' then ("", s[1..])
    else
      var l := LabelAt(s[1..]);
      assert s == [s[0]] + s[1..];
      ([s[0]] + l.0, l.1)
  }

  /** Cuts a label into the labels that its value reads like. */
  function Pieces(l: Label): (r: seq<Label>)
    ensures r != []
    decreases |l.1|
  {
    var n := FirstCut(l.1);
    if n == |l.1| then [l] else [(l.0, l.1[..n])] + Pieces(LabelAt(l.1[n + 1..]))
  }

  /** All that a label list reads like. */
  function Split(labels: seq<Label>): seq<Label> {
    if labels == [] then [] else Pieces(labels[0]) + Split(labels[1..])
  }

  lemma {:induction false} BeforeFirstCut(s: string)
    ensures CutFree(s[..FirstCut(s)])
  {
    var n := FirstCut(s);
    if n > 0 {
      BeforeFirstCut(s[1..]);
      var t := s[..n];
      assert t[1..] == s[1..][..n - 1];
      assert s[1..] == t[1..] + s[n..];
      StartsLabelStops(t[1..], s[n..]);
    }
  }

  lemma {:induction false} PiecesAreCutFree(l: Label)
    requires '=' !in l.0 && ',' !in l.0
    ensures CutFreeLabels(Pieces(l))
    decreases |l.1|
  {
    hide StartsLabel;
    var n := FirstCut(l.1);
    BeforeFirstCut(l.1);
    if n < |l.1| {
      PiecesAreCutFree(LabelAt(l.1[n + 1..]));
    } else {
      assert l.1[..n] == l.1;
    }
  }

  lemma {:induction false} SplitIsCutFree(labels: seq<Label>)
    requires CleanNames(labels)
    ensures CutFreeLabels(Split(labels))
  {
    hide CutFree, Pieces;
    if labels != [] {
      PiecesAreCutFree(labels[0]);
      SplitIsCutFree(labels[1..]);
    }
  }

  lemma {:induction false} JoinedConcat(x: seq<Label>, y: seq<Label>)
    ensures Joined(x + y) == if x == [] then Joined(y) else if y == [] then Joined(x)
                             else Joined(x) + "," + Joined(y)
  {
    if x == [] {
      assert x + y == y;
    } else if y == [] {
      assert x + y == x;
    } else {
      assert (x + y)[1..] == x[1..] + y;
      JoinedConcat(x[1..], y);
      if |x| > 1 {
        assert Item(x[0]) + "," + (Joined(x[1..]) + "," + Joined(y)) == Item(x[0]) + "," + Joined(x[1..]) + "," + Joined(y);
      }
    }
  }

  lemma JoinedFirst(first: Label, rest: seq<Label>)
    requires rest != []
    ensures Joined([first] + rest) == Item(first) + "," + Joined(rest)
  {
    assert ([first] + rest)[1..] == rest;
  }

  lemma ItemExtends(name: string, value: string, more: string)
    ensures Item((name, value)) + "," + more == Item((name, value + "," + more))
  {
  }

  lemma {:induction false} PiecesJoin(l: Label)
    ensures Joined(Pieces(l)) == Item(l)
    decreases |l.1|
  {
    hide StartsLabel, Joined, FirstCut, LabelAt;
    var n := FirstCut(l.1);
    if n < |l.1| {
      var first: Label, rest := (l.0, l.1[..n]), LabelAt(l.1[n + 1..]);
      PiecesJoin(rest);
      JoinedFirst(first, Pieces(rest));
      assert l.1 == l.1[..n] + "," + Item(rest);
      ItemExtends(l.0, l.1[..n], Item(rest));
    } else {
      JoinedOne(l);
    }
  }

  lemma {:induction false} SplitJoins(labels: seq<Label>)
    ensures Joined(Split(labels)) == Joined(labels)
    ensures labels != [] ==> Split(labels) != []
  {
    hide Item, Pieces;
    if labels != [] {
      PiecesJoin(labels[0]);
      SplitJoins(labels[1..]);
      JoinedConcat(Pieces(labels[0]), Split(labels[1..]));
    }
  }

  lemma CleanNamesStay(labels: seq<Label>, sorted: seq<Label>)
    requires CleanNames(labels) && multiset(sorted) == multiset(labels)
    ensures CleanNames(sorted)
  {
    forall i | 0 <= i < |sorted|
      ensures '=' !in sorted[i].0 && ',' !in sorted[i].0
    {
      assert sorted[i] in multiset(labels);
      var j :| 0 <= j < |labels| && labels[j] == sorted[i];
    }
  }

  /** The exact condition on two series: they share a key if and only if their families have one name and
      their sorted labels read like the same labels. */
  lemma KeyIffSameSplit(name: string, labels: seq<Label>, name': string, labels': seq<Label>)
    requires '|' !in name && '|' !in name' && CleanNames(labels) && CleanNames(labels')
    ensures Key(name, Sorted(labels)) == Key(name', Sorted(labels'))
            <==> name == name' && Split(Sorted(labels)) == Split(Sorted(labels'))
  {
    hide Joined, Split;
    var x, y := Sorted(labels), Sorted(labels');
    SplitJoins(x);
    SplitJoins(y);
    if Key(name, x) == Key(name', y) {
      KeyDeterminesName(name, x, name', y);
      CleanNamesStay(labels, x);
      CleanNamesStay(labels', y);
      SplitIsCutFree(x);
      SplitIsCutFree(y);
      JoinedInjective(Split(x), Split(y));
    }
  }

  /** The value has a comma behind which a label begins that may follow the part before the comma. */
  predicate Divisible(l: Label) {
    exists i :: 0 <= i < |l.1| && DividesAt(l, i)
  }

  predicate DividesAt(l: Label, i: nat)
    requires i < |l.1|
  {
    l.1[i] == ',' && StartsLabel(l.1[i + 1..]) && AtMost((l.0, l.1[..i]), LabelAt(l.1[i + 1..]))
  }

  /** Some other series has the key of this one. */
  ghost predicate SharesKey(name: string, labels: seq<Label>) {
    exists name', labels' ::
      && '|' !in name' && CleanNames(labels') && !(name' == name && multiset(labels') == multiset(labels))
      && Key(name', Sorted(labels')) == Key(name, Sorted(labels))
  }

  lemma SharesKeyWith(name: string, labels: seq<Label>, other: seq<Label>)
    requires '|' !in name && CleanNames(other) && IsSorted(other) && |other| != |labels|
    requires Joined(other) == Joined(Sorted(labels))
    ensures SharesKey(name, labels)
  {
    hide Joined, IsSorted;
    SortedIsSorted(other);
    SortedUnique(Sorted(other), other);
    assert |multiset(other)| == |other| && |multiset(labels)| == |labels|;
    assert Key(name, Sorted(other)) == Key(name, Sorted(labels));
  }

  /** Two or more labels render like one label whose value embeds all but the first. */
  lemma FusedJoins(labels: seq<Label>) returns (fused: seq<Label>)
    requires CleanNames(labels) && |labels| >= 2
    ensures |fused| == 1 && CleanNames(fused) && Joined(fused) == Joined(Sorted(labels))
  {
    var s := Sorted(labels);
    assert |multiset(s)| == |s| && |multiset(labels)| == |labels|;
    CleanNamesStay(labels, s);
    fused := [(s[0].0, s[0].1 + "," + Joined(s[1..]))];
    ItemExtends(s[0].0, s[0].1, Joined(s[1..]));
    assert s == [s[0]] + s[1..];
    JoinedFirst(s[0], s[1..]);
    JoinedOne(fused[0]);
    hide Joined, Item;
  }

  lemma FusedShares(name: string, labels: seq<Label>)
    requires '|' !in name && CleanNames(labels) && |labels| >= 2
    ensures SharesKey(name, labels)
  {
    var fused := FusedJoins(labels);
    hide Joined;
    SharesKeyWith(name, labels, fused);
  }

  lemma SortedOne(labels: seq<Label>)
    requires |labels| <= 1
    ensures Sorted(labels) == labels
  {
    SortedIsSorted(labels);
    SortedUnique(Sorted(labels), labels);
  }

  /** A label renders like the two labels its value divides into. */
  lemma DividedJoins(l: Label, i: nat, rest: Label)
    requires i < |l.1| && l.1[i] == ',' && l.1[i + 1..] == Item(rest)
    ensures Joined([(l.0, l.1[..i]), rest]) == Joined([l])
  {
    var first: Label := (l.0, l.1[..i]);
    assert l.1 == l.1[..i] + "," + Item(rest);
    ItemExtends(l.0, l.1[..i], Item(rest));
    assert [first] + [rest] == [first, rest];
    JoinedFirst(first, [rest]);
    JoinedOne(rest);
    JoinedOne(l);
    hide Joined;
  }

  lemma DividedShares(name: string, l: Label, i: nat)
    requires '|' !in name && '=' !in l.0 && ',' !in l.0 && i < |l.1| && DividesAt(l, i)
    ensures SharesKey(name, [l])
  {
    hide AtMost, StartsLabel, SharesKey, Joined, LabelAt;
    var first: Label, rest := (l.0, l.1[..i]), LabelAt(l.1[i + 1..]);
    DividedJoins(l, i, rest);
    SortedOne([l]);
    SharesKeyWith(name, [l], [first, rest]);
  }

  lemma {:induction false} LongerIsGreater(a: string, b: string, tail: string)
    requires a == b || Less(a, b)
    ensures a == b + tail || Less(a, b + tail)
  {
    if a != [] && a[0] == b[0] {
      assert a == [a[0]] + a[1..] && b == [b[0]] + b[1..];
      assert (b + tail)[1..] == b[1..] + tail;
      LongerIsGreater(a[1..], b[1..], tail);
      assert b + tail == [b[0]] + (b[1..] + tail);
    } else if a == [] && b == [] {
      assert b + tail == tail;
    }
  }

  lemma {:induction false} LabelAtName(name: string, rest: string)
    requires '=' !in name && ',' !in name
    ensures StartsLabel(name + "=" + rest) && LabelAt(name + "=" + rest) == (name, rest)
  {
    NameStartsLabel(name, rest);
    var l := LabelAt(name + "=" + rest);
    CutAtFirst(l.0, l.1, name, rest, '=');
  }

  /** A single label that renders like a list of several divides where the first of them ends. */
  lemma DivisionOfList(l: Label, y: seq<Label>) returns (i: nat)
    requires '=' !in l.0 && ',' !in l.0 && CleanNames(y) && |y| >= 2 && Joined(y) == Item(l)
    ensures i < |l.1| && l.1[i] == ',' && StartsLabel(l.1[i + 1..])
    ensures (l.0, l.1[..i]) == y[0] && LabelAt(l.1[i + 1..]) == (y[1].0, y[1].1 + Tail(y[1..]))
  {
    hide Joined, StartsLabel, Tail;
    JoinedUnfolds(y);
    JoinedUnfolds(y[1..]);
    CutAtFirst(l.0, l.1, y[0].0, y[0].1 + Tail(y), '=');
    i := |y[0].1|;
    LabelAtName(y[1].0, y[1].1 + Tail(y[1..]));
    TailOf(y);
    assert l.1[..i] == y[0].1 && l.1[i] == ',' && l.1[i + 1..] == Joined(y[1..]);
  }

  lemma DividesLikeList(l: Label, y: seq<Label>)
    requires '=' !in l.0 && ',' !in l.0 && CleanNames(y) && IsSorted(y) && |y| >= 2 && Joined(y) == Item(l)
    ensures Divisible(l)
  {
    hide Joined, StartsLabel, Less, Tail, LabelAt;
    var i := DivisionOfList(l, y);
    assert AtMost(y[0], y[1]);
    if y[0].0 == y[1].0 && !Less(y[0].0, y[1].0) {
      LongerIsGreater(y[0].1, y[1].1, Tail(y[1..]));
    }
    assert DividesAt(l, i);
  }

  lemma TailOf(y: seq<Label>)
    requires |y| >= 2
    ensures Tail(y) == "," + Joined(y[1..])
  {
  }

  lemma OneLabelShares(name: string, l: Label)
    requires '|' !in name && '=' !in l.0 && ',' !in l.0 && SharesKey(name, [l])
    ensures Divisible(l)
  {
    hide Joined, Divisible, IsSorted, StartsLabel;
    var name', labels' :|
      && '|' !in name' && CleanNames(labels') && !(name' == name && multiset(labels') == multiset([l]))
      && Key(name', Sorted(labels')) == Key(name, Sorted([l]));
    SortedOne([l]);
    var y := Sorted(labels');
    KeyDeterminesName(name', y, name, [l]);
    JoinedOne(l);
    CleanNamesStay(labels', y);
    SortedIsSorted(labels');
    assert |multiset(y)| == |y| && |multiset(labels')| == |labels'|;
    if |y| >= 2 {
      DividesLikeList(l, y);
    } else if |y| == 1 {
      assert y == [y[0]];
      JoinedOne(y[0]);
      CutAtFirst(y[0].0, y[0].1, l.0, l.1, '=');
    } else {
      JoinedEmpty(y);
    }
  }

  lemma JoinedOne(l: Label)
    ensures Joined([l]) == Item(l) == l.0 + "=" + l.1 != ""
  {
  }

  /** The exact condition on one series: another one shares its key if and only if it has several labels,
      or one whose value can be divided at a comma into two labels in sorted order. */
  lemma SharesKeyIff(name: string, labels: seq<Label>)
    requires '|' !in name && CleanNames(labels)
    ensures SharesKey(name, labels) <==> |labels| >= 2 || (|labels| == 1 && Divisible(labels[0]))
  {
    hide SharesKey, Divisible, Joined;
    if |labels| >= 2 {
      FusedShares(name, labels);
    } else if |labels| == 1 {
      assert labels == [labels[0]];
      if Divisible(labels[0]) {
        var i := DivisionOf(labels[0]);
        DividedShares(name, labels[0], i);
      }
      if SharesKey(name, labels) {
        OneLabelShares(name, labels[0]);
      }
    } else {
      NoLabelsUnshared(name);
      assert labels == [];
    }
  }

  lemma DivisionOf(l: Label) returns (i: nat)
    requires Divisible(l)
    ensures i < |l.1| && DividesAt(l, i)
  {
    i :| 0 <= i < |l.1| && DividesAt(l, i);
  }

  lemma NoLabelsUnshared(name: string)
    requires '|' !in name
    ensures !SharesKey(name, [])
  {
    hide Joined;
    forall name', labels' | '|' !in name' && CleanNames(labels') && Key(name', Sorted(labels')) == Key(name, Sorted([]))
      ensures name' == name && multiset(labels') == multiset([])
    {
      SortedOne([]);
      KeyDeterminesName(name', Sorted(labels'), name, []);
      JoinedEmpty(Sorted(labels'));
      JoinedEmpty([]);
      assert |multiset(labels')| == |labels'|;
    }
  }

  // ----- series whose labels have different names, as the Prometheus rules demand

  ghost predicate DistinctNames(labels: seq<Label>) {
    forall i, j :: 0 <= i < j < |labels| ==> labels[i].0 != labels[j].0
  }

  /** The value has a comma behind which a label with a greater name begins. */
  predicate DivisibleByName(l: Label) {
    exists i :: 0 <= i < |l.1| && DividesByName(l, i)
  }

  predicate DividesByName(l: Label, i: nat)
    requires i < |l.1|
  {
    l.1[i] == ',' && StartsLabel(l.1[i + 1..]) && Less(l.0, LabelAt(l.1[i + 1..]).0)
  }

  ghost predicate IsPartner(name: string, labels: seq<Label>, name': string, labels': seq<Label>) {
    && '|' !in name' && CleanNames(labels') && DistinctNames(labels')
    && !(name' == name && multiset(labels') == multiset(labels))
    && Key(name', Sorted(labels')) == Key(name, Sorted(labels))
  }

  lemma IsPartnerOfLength(name: string, labels: seq<Label>, other: seq<Label>)
    requires '|' !in name && CleanNames(other) && DistinctNames(other) && IsSorted(other) && |other| != |labels|
    requires Joined(other) == Joined(Sorted(labels))
    ensures IsPartner(name, labels, name, other)
  {
    hide Joined, IsSorted, DistinctNames;
    SortedIsSorted(other);
    SortedUnique(Sorted(other), other);
    assert |multiset(other)| == |other| && |multiset(labels)| == |labels|;
  }

  lemma PartnerOfDivided(name: string, l: Label, i: nat) returns (other: seq<Label>)
    requires '|' !in name && '=' !in l.0 && ',' !in l.0 && i < |l.1| && DividesByName(l, i)
    ensures IsPartner(name, [l], name, other)
  {
    hide Less, StartsLabel, IsPartner, Joined, LabelAt;
    var first: Label, rest := (l.0, l.1[..i]), LabelAt(l.1[i + 1..]);
    LessIsTotal(first.0, rest.0);
    other := [first, rest];
    DividedJoins(l, i, rest);
    SortedOne([l]);
    IsPartnerOfLength(name, [l], other);
  }

  /** A single label that renders like a sorted list with different names divides by name. */
  lemma DividesByNameLikeList(l: Label, y: seq<Label>)
    requires '=' !in l.0 && ',' !in l.0 && CleanNames(y) && IsSorted(y) && DistinctNames(y) && |y| >= 2
    requires Joined(y) == Item(l)
    ensures DivisibleByName(l)
  {
    hide Joined, StartsLabel, Less, Tail, LabelAt;
    var i := DivisionOfList(l, y);
    assert AtMost(y[0], y[1]) && y[0].0 != y[1].0;
    assert DividesByName(l, i);
  }

  lemma PartnerDivides(name: string, l: Label, name': string, labels': seq<Label>)
    requires '|' !in name && '=' !in l.0 && ',' !in l.0 && IsPartner(name, [l], name', labels')
    ensures DivisibleByName(l)
  {
    hide Joined, DivisibleByName, IsSorted, StartsLabel, DistinctNames;
    SortedOne([l]);
    var y := Sorted(labels');
    KeyDeterminesName(name', y, name, [l]);
    JoinedOne(l);
    CleanNamesStay(labels', y);
    DistinctNamesStay(labels', y);
    SortedIsSorted(labels');
    assert |multiset(y)| == |y| && |multiset(labels')| == |labels'|;
    if |y| >= 2 {
      DividesByNameLikeList(l, y);
    } else if |y| == 1 {
      assert y == [y[0]];
      JoinedOne(y[0]);
      CutAtFirst(y[0].0, y[0].1, l.0, l.1, '=');
    } else {
      JoinedEmpty(y);
    }
  }

  lemma {:induction false} DistinctNamesStay(labels: seq<Label>, sorted: seq<Label>)
    requires DistinctNames(labels) && multiset(sorted) == multiset(labels)
    ensures DistinctNames(sorted)
  {
    forall i, j | 0 <= i < j < |sorted|
      ensures sorted[i].0 != sorted[j].0
    {
      var a, b := sorted[i], sorted[j];
      assert a in multiset(labels) && b in multiset(labels);
      var p :| 0 <= p < |labels| && labels[p] == a;
      var q :| 0 <= q < |labels| && labels[q] == b;
      AtMostOnce(labels, a);
      if a == b {
        TwiceIn(sorted, i, j);
      }
    }
  }

  lemma TwiceIn(s: seq<Label>, i: nat, j: nat)
    requires i < j < |s| && s[i] == s[j]
    ensures multiset(s)[s[i]] >= 2
  {
    assert s == s[..i] + [s[i]] + s[i + 1..j] + [s[j]] + s[j + 1..];
  }

  lemma {:induction false} AtMostOnce(s: seq<Label>, a: Label)
    requires DistinctNames(s)
    ensures multiset(s)[a] <= 1
  {
    if s != [] {
      var rest, last := s[..|s| - 1], s[|s| - 1];
      assert s == rest + [last];
      AtMostOnce(rest, a);
      assert forall p :: 0 <= p < |rest| ==> rest[p].0 != last.0;
      assert last !in rest;
      assert multiset(rest)[last] == 0;
    }
  }

  /** The exact condition among series with different label names: another one shares the key of a series if
      and only if it has several labels, or one whose value holds a label with a greater name behind a comma. */
  lemma SharesKeyIffDistinctNames(name: string, labels: seq<Label>)
    requires '|' !in name && CleanNames(labels) && DistinctNames(labels)
    ensures (exists name', labels' :: IsPartner(name, labels, name', labels'))
            <==> |labels| >= 2 || (|labels| == 1 && DivisibleByName(labels[0]))
  {
    hide DivisibleByName, Joined, IsPartner;
    if |labels| >= 2 {
      var fused := PartnerOfSeveral(name, labels);
    } else if |labels| == 1 {
      assert labels == [labels[0]];
      if DivisibleByName(labels[0]) {
        var i := DivisionByName(labels[0]);
        var other := PartnerOfDivided(name, labels[0], i);
      }
      if name', labels' :| IsPartner(name, labels, name', labels') {
        PartnerDivides(name, labels[0], name', labels');
      }
    } else {
      assert labels == [];
      forall name', labels'
        ensures !IsPartner(name, labels, name', labels')
      {
        NoPartnerOfNothing(name, name', labels');
      }
    }
  }

  lemma PartnerOfSeveral(name: string, labels: seq<Label>) returns (other: seq<Label>)
    requires '|' !in name && CleanNames(labels) && |labels| >= 2
    ensures IsPartner(name, labels, name, other)
  {
    hide IsPartner;
    other := FusedJoins(labels);
    hide Joined;
    IsPartnerOfLength(name, labels, other);
  }

  lemma DivisionByName(l: Label) returns (i: nat)
    requires DivisibleByName(l)
    ensures i < |l.1| && DividesByName(l, i)
  {
    i :| 0 <= i < |l.1| && DividesByName(l, i);
  }

  lemma NoPartnerOfNothing(name: string, name': string, labels': seq<Label>)
    requires '|' !in name
    ensures !IsPartner(name, [], name', labels')
  {
    NoLabelsUnshared(name);
  }

  /** Two different series, both with sorted labels, and one key: the later one would be dropped. */
  lemma DistinctSeriesOneKey()
    ensures var x: seq<Label>, y: seq<Label> := [("a", "1,b=2")], [("a", "1"), ("b", "2")];
            IsSorted(x) && IsSorted(y) && x != y && Key("m", x) == Key("m", y)
  {
    EmbeddedLabelCollides([], ("a", "1"), "b", "2", []);
    assert "1" + "," + "b" + "=" + "2" == "1,b=2";
    var x: seq<Label>, y: seq<Label> := [("a", "1,b=2")], [("a", "1"), ("b", "2")];
    assert [] + x + [] == x && [] + y + [] == y;
  }

  /** A value that reads like a further label but shares its key with nothing: the labels would not be
      in sorted order. */
  lemma UnsortedCutUnshared()
    ensures !CutFree("1,a=2") && !SharesKey("m", [("b", "1,a=2")])
  {
    var v := "1,a=2";
    assert StartsLabel(v[2..]) by { assert v[2..] == "a=2" && v[2..][1..] == "=2"; }
    assert v[1] == ',' && v[1..][1..] == v[2..];
    assert !Divisible(("b", v)) by {
      forall i | 0 <= i < |v|
        ensures !DividesAt(("b", v), i)
      {
        if i == 1 {
          LabelAtName("a", "2");
          assert v[2..] == "a" + "=" + "2";
        }
      }
    }
    SharesKeyIff("m", [("b", v)]);
  }
}
