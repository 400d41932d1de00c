/** Parsing and printing endpoint names (lib/runtime/src/protocols.rs, `PortNameId`). */
module PortNames {

  const SCHEME := "pgd://"

  datatype PortNameId = PortNameId(namespace: string, servicegroup: string, name: string)

  const DEFAULT: PortNameId := PortNameId("NS", "C", "E")

  predicate IsSeparator(c: char) { c == '.' || c == '/' }

  /** The characters trimmed at both ends. */
  predicate IsTrimmed(c: char) { c == ' ' || IsSeparator(c) }

  // ----- the parser

  function StripScheme(s: string): string {
    if SCHEME <= s then s[|SCHEME|..] else s
  }

  function TrimStart(s: string): string {
    if s != [] && IsTrimmed(s[0]) then TrimStart(s[1..]) else s
  }

  function TrimEnd(s: string): string {
    if s != [] && IsTrimmed(s[|s| - 1]) then TrimEnd(s[..|s| - 1]) else s
  }

  function Trim(s: string): string { TrimEnd(TrimStart(s)) }

  function Split(s: string): (r: seq<string>)
    ensures r != []
  {
    if s == [] then [""]
    else if IsSeparator(s[0]) then [""] + Split(s[1..])
    else
      var r := Split(s[1..]);
      [[s[0]] + r[0]] + r[1..]
  }

  function NonEmpty(segments: seq<string>): seq<string> {
    if segments == [] then []
    else (if segments[0] == "" then [] else [segments[0]]) + NonEmpty(segments[1..])
  }

  function Segments(s: string): seq<string> {
    NonEmpty(Split(Trim(StripScheme(s))))
  }

  function Joined(segments: seq<string>, sep: char): string
    requires segments != []
  {
    if |segments| == 1 then segments[0] else segments[0] + [sep] + Joined(segments[1..], sep)
  }

  function FromSegments(segments: seq<string>): PortNameId {
    if segments == [] then DEFAULT
    else if |segments| == 1 then DEFAULT.(servicegroup := segments[0])
    else if |segments| == 2 then PortNameId(segments[0], segments[1], DEFAULT.name)
    else PortNameId(segments[0], segments[1], Joined(segments[2..], '_'))
  }

  function Parse(s: string): PortNameId {
    FromSegments(Segments(s))
  }

  // ----- the printers

  function Rendered(id: PortNameId, sep: char): string {
    id.namespace + [sep] + id.servicegroup + [sep] + id.name
  }

  function Display(id: PortNameId): string { Rendered(id, '/') }

  function AsUrl(id: PortNameId): string { SCHEME + Rendered(id, '.') }

  // ----- segments

  ghost predicate Plain(s: string) {
    s != [] && forall i :: 0 <= i < |s| ==> !IsSeparator(s[i])
  }

  /** Identifiers that printing keeps apart: three plain fields, and no blank at the outer ends. */
  ghost predicate Canonical(id: PortNameId) {
    && Plain(id.namespace) && Plain(id.servicegroup) && Plain(id.name)
    && id.namespace[0] != ' ' && id.name[|id.name| - 1] != ' '
  }

  lemma {:induction false} SplitIsPlain(s: string, i: nat)
    requires i < |Split(s)|
    ensures Split(s)[i] == [] || Plain(Split(s)[i])
  {
    if s != [] {
      if IsSeparator(s[0]) {
        if i > 0 {
          SplitIsPlain(s[1..], i - 1);
        }
      } else {
        SplitIsPlain(s[1..], i);
      }
    }
  }

  lemma {:induction false} NonEmptyIsPlain(segments: seq<string>, i: nat)
    requires forall k :: 0 <= k < |segments| ==> segments[k] == [] || Plain(segments[k])
    requires i < |NonEmpty(segments)|
    ensures Plain(NonEmpty(segments)[i])
  {
    if segments[0] == "" {
      NonEmptyIsPlain(segments[1..], i);
    } else if i > 0 {
      NonEmptyIsPlain(segments[1..], i - 1);
    }
  }

  lemma FirstSegment(s: string)
    requires s != [] && !IsSeparator(s[0])
    ensures Split(s)[0] != [] && Split(s)[0][0] == s[0]
  {
  }

  lemma {:induction false} LastSegment(s: string)
    requires s != [] && !IsSeparator(s[|s| - 1])
    ensures var last := Split(s)[|Split(s)| - 1]; last != [] && last[|last| - 1] == s[|s| - 1]
  {
    if |s| > 1 {
      LastSegment(s[1..]);
      var r := Split(s[1..]);
      if !IsSeparator(s[0]) && |r| > 1 {
        assert Split(s)[|Split(s)| - 1] == r[|r| - 1];
      }
    }
  }

  lemma {:induction false} NonEmptyEnds(segments: seq<string>)
    requires segments != [] && segments[|segments| - 1] != ""
    ensures NonEmpty(segments) != []
    ensures NonEmpty(segments)[|NonEmpty(segments)| - 1] == segments[|segments| - 1]
    ensures segments[0] != "" ==> NonEmpty(segments)[0] == segments[0]
  {
    if |segments| > 1 {
      NonEmptyEnds(segments[1..]);
    }
  }

  lemma {:induction false} TrimStartEnds(s: string)
    ensures TrimStart(s) != [] ==> !IsTrimmed(TrimStart(s)[0])
  {
    if s != [] && IsTrimmed(s[0]) {
      TrimStartEnds(s[1..]);
    }
  }

  lemma {:induction false} TrimEndEnds(s: string)
    ensures TrimEnd(s) != [] ==> !IsTrimmed(TrimEnd(s)[|TrimEnd(s)| - 1])
    ensures TrimEnd(s) <= s
  {
    if s != [] && IsTrimmed(s[|s| - 1]) {
      TrimEndEnds(s[..|s| - 1]);
    }
  }

  /** All segments are plain; the first does not begin and the last does not end with a blank. */
  lemma SegmentsShape(s: string)
    ensures forall i :: 0 <= i < |Segments(s)| ==> Plain(Segments(s)[i])
    ensures Segments(s) != [] ==> Segments(s)[0] != [] && Segments(s)[0][0] != ' '
    ensures Segments(s) != [] ==>
              var last := Segments(s)[|Segments(s)| - 1]; last != [] && last[|last| - 1] != ' '
  {
    var t := Trim(StripScheme(s));
    forall i | 0 <= i < |Segments(s)|
      ensures Plain(Segments(s)[i])
    {
      forall k | 0 <= k < |Split(t)|
        ensures Split(t)[k] == [] || Plain(Split(t)[k])
      {
        SplitIsPlain(t, k);
      }
      NonEmptyIsPlain(Split(t), i);
    }
    if t != [] {
      TrimStartEnds(StripScheme(s));
      TrimEndEnds(TrimStart(StripScheme(s)));
      FirstSegment(t);
      LastSegment(t);
      NonEmptyEnds(Split(t));
    } else {
      assert Split(t) == [""];
      assert NonEmpty([""]) == NonEmpty([""][1..]) == [];
    }
  }

  lemma {:induction false} FoldedShape(segments: seq<string>)
    requires segments != [] && forall i :: 0 <= i < |segments| ==> Plain(segments[i])
    ensures Plain(Joined(segments, '_'))
    ensures var name, last := Joined(segments, '_'), segments[|segments| - 1];
            last != [] && name[|name| - 1] == last[|last| - 1]
  {
    if |segments| > 1 {
      FoldedShape(segments[1..]);
    }
  }

  /** Every text, however malformed, parses to a canonical identifier. */
  lemma ParseIsCanonical(s: string)
    ensures Canonical(Parse(s))
  {
    SegmentsShape(s);
    var segments := Segments(s);
    if |segments| >= 3 {
      FoldedShape(segments[2..]);
    }
  }

  // ----- round trips

  /** Splitting works on the parts before and behind any separator. */
  lemma {:induction false} SplitAtSeparator(x: string, c: char, rest: string)
    requires IsSeparator(c)
    ensures Split(x + [c] + rest) == Split(x) + Split(rest)
  {
    var s := x + [c] + rest;
    if x == [] {
      assert s[1..] == rest;
    } else {
      assert s[1..] == x[1..] + [c] + rest;
      SplitAtSeparator(x[1..], c, rest);
    }
  }

  lemma {:induction false} SplitPlain(x: string)
    requires forall i :: 0 <= i < |x| ==> !IsSeparator(x[i])
    ensures Split(x) == [x]
  {
    if x != [] {
      SplitPlain(x[1..]);
      assert [x[0]] + x[1..] == x;
    }
  }

  // ----- every number of segments

  /** Plain segments, the first not beginning and the last not ending with a blank. */
  ghost predicate Tidy(segments: seq<string>) {
    && segments != [] && (forall i :: 0 <= i < |segments| ==> Plain(segments[i]))
    && segments[0][0] != ' '
    && var last := segments[|segments| - 1]; last[|last| - 1] != ' '
  }

  lemma {:induction false} JoinedSplits(segments: seq<string>, sep: char)
    requires segments != [] && IsSeparator(sep)
    requires forall i :: 0 <= i < |segments| ==> Plain(segments[i])
    ensures Split(Joined(segments, sep)) == segments && NonEmpty(segments) == segments
  {
    if |segments| == 1 {
      SplitPlain(segments[0]);
      assert segments == [segments[0]] && segments[1..] == [];
    } else {
      JoinedSplits(segments[1..], sep);
      SplitAtSeparator(segments[0], sep, Joined(segments[1..], sep));
      SplitPlain(segments[0]);
      assert segments == [segments[0]] + segments[1..];
    }
  }

  lemma {:induction false} JoinedEnds(segments: seq<string>, sep: char)
    requires segments != [] && forall i :: 0 <= i < |segments| ==> Plain(segments[i])
    ensures var s, first, last := Joined(segments, sep), segments[0], segments[|segments| - 1];
            s != [] && first != [] && last != [] && s[0] == first[0] && s[|s| - 1] == last[|last| - 1]
  {
    if |segments| > 1 {
      hide Joined;
      JoinedEnds(segments[1..], sep);
      JoinedUnfolds(segments, sep);
      var s, rest := Joined(segments, sep), Joined(segments[1..], sep);
      assert s[|s| - 1] == rest[|rest| - 1];
    }
  }

  lemma JoinedUnfolds(segments: seq<string>, sep: char)
    requires |segments| > 1
    ensures Joined(segments, sep) == segments[0] + [sep] + Joined(segments[1..], sep)
  {
  }

  /** Between tidy segments no separator follows another, so the scheme is not mistaken for one. */
  lemma JoinedHasNoScheme(segments: seq<string>, sep: char)
    requires Tidy(segments)
    ensures !(SCHEME <= Joined(segments, sep))
  {
    var s, x := Joined(segments, sep), segments[0];
    assert SCHEME[4] == '/' && SCHEME[5] == '/' && forall i :: 0 <= i < 4 ==> SCHEME[i] != '/';
    assert forall i :: 0 <= i < |x| ==> s[i] == x[i] && !IsSeparator(s[i]);
    if |segments| > 1 {
      JoinedEnds(segments[1..], sep);
      assert s[|x| + 1] == segments[1..][0][0];
    }
  }

  /** Reading a name and writing its segments are inverse, for any number of segments, with either
      separator, with or without the scheme. */
  lemma SegmentsOfJoined(segments: seq<string>, sep: char)
    requires Tidy(segments) && IsSeparator(sep)
    ensures Segments(Joined(segments, sep)) == segments
    ensures Segments(SCHEME + Joined(segments, sep)) == segments
  {
    var s := Joined(segments, sep);
    JoinedSplits(segments, sep);
    JoinedEnds(segments, sep);
    JoinedHasNoScheme(segments, sep);
    assert Trim(s) == s;
    assert (SCHEME + s)[|SCHEME|..] == s;
  }

  /** The documented forms: a lone segment names the service group, two leave the name to its default,
      and all that follows the second segment becomes the name. */
  lemma FieldsByPosition(segments: seq<string>, sep: char)
    requires Tidy(segments) && IsSeparator(sep)
    ensures var id, k := Parse(Joined(segments, sep)), |segments|;
            && id.namespace == (if k == 1 then "NS" else segments[0])
            && id.servicegroup == (if k == 1 then segments[0] else segments[1])
            && id.name == (if k <= 2 then "E" else Joined(segments[2..], '_'))
            && Parse(SCHEME + Joined(segments, sep)) == id
  {
    hide Segments, Joined;
    SegmentsOfJoined(segments, sep);
  }

  /** Text without any segment stands for the default identifier. */
  lemma NothingNamed(s: string)
    requires forall i :: 0 <= i < |s| ==> IsTrimmed(s[i])
    ensures Parse(s) == Parse(SCHEME + s) == PortNameId("NS", "C", "E")
  {
    AllTrimmed(s);
    assert (SCHEME + s)[|SCHEME|..] == s;
    assert !(SCHEME <= s) by {
      assert !IsTrimmed(SCHEME[0]);
      assert s != [] ==> s[0] != SCHEME[0];
    }
    assert Split("") == [""] && NonEmpty([""]) == NonEmpty([""][1..]) == [];
  }

  lemma {:induction false} AllTrimmed(s: string)
    requires forall i :: 0 <= i < |s| ==> IsTrimmed(s[i])
    ensures TrimStart(s) == []
  {
    if s != [] {
      AllTrimmed(s[1..]);
    }
  }

  /** Printing an identifier is writing its three fields as segments. */
  lemma RenderedIsJoined(id: PortNameId, sep: char)
    ensures Rendered(id, sep) == Joined([id.namespace, id.servicegroup, id.name], sep)
  {
    var fields := [id.namespace, id.servicegroup, id.name];
    assert fields[1..] == [id.servicegroup, id.name] && fields[1..][1..] == [id.name];
    assert Joined([id.servicegroup, id.name], sep) == id.servicegroup + [sep] + id.name;
    assert Joined(fields, sep) == id.namespace + [sep] + (id.servicegroup + [sep] + id.name);
  }

  lemma CanonicalRoundTrips(id: PortNameId)
    requires Canonical(id)
    ensures Parse(Display(id)) == id && Parse(AsUrl(id)) == id
  {
    hide Segments, Joined, Rendered;
    var fields := [id.namespace, id.servicegroup, id.name];
    assert Tidy(fields);
    RenderedIsJoined(id, '/');
    RenderedIsJoined(id, '.');
    SegmentsOfJoined(fields, '/');
    SegmentsOfJoined(fields, '.');
    assert fields[2..] == [id.name];
    JoinedOne(id.name);
  }

  lemma JoinedOne(x: string)
    ensures Joined([x], '_') == x
  {
  }

  /** An identifier survives printing and parsing exactly when it is canonical. */
  lemma RoundTripsIffCanonical(id: PortNameId)
    ensures Parse(Display(id)) == id <==> Canonical(id)
    ensures Parse(AsUrl(id)) == id <==> Canonical(id)
  {
    ParseIsCanonical(Display(id));
    ParseIsCanonical(AsUrl(id));
    if Canonical(id) {
      CanonicalRoundTrips(id);
    }
  }

  /** Whatever was parsed, printing it either way and parsing again changes nothing. */
  lemma ParsePrintParse(s: string)
    ensures Parse(Display(Parse(s))) == Parse(s)
    ensures Parse(AsUrl(Parse(s))) == Parse(s)
  {
    ParseIsCanonical(s);
    CanonicalRoundTrips(Parse(s));
  }

  /** The identifiers that parsing can produce are exactly the canonical ones. */
  lemma ParsedIffCanonical(id: PortNameId)
    ensures Canonical(id) <==> exists s :: Parse(s) == id
  {
    if Canonical(id) {
      CanonicalRoundTrips(id);
      assert Parse(Display(id)) == id;
    }
    if s :| Parse(s) == id {
      ParseIsCanonical(s);
    }
  }

  // ----- what is ignored

  ghost predicate AllTrimmable(s: string) {
    forall i :: 0 <= i < |s| ==> IsTrimmed(s[i])
  }

  lemma {:induction false} TrimStartConcat(x: string, y: string)
    ensures TrimStart(x + y) == if TrimStart(x) == [] then TrimStart(y) else TrimStart(x) + y
  {
    if x == [] {
      assert x + y == y;
    } else if IsTrimmed(x[0]) {
      assert (x + y)[1..] == x[1..] + y;
      TrimStartConcat(x[1..], y);
    }
  }

  lemma {:induction false} TrimEndConcat(x: string, y: string)
    ensures TrimEnd(x + y) == if TrimEnd(y) == [] then TrimEnd(x) else x + TrimEnd(y)
  {
    if y == [] {
      assert x + y == x;
    } else if IsTrimmed(y[|y| - 1]) {
      assert (x + y)[..|x + y| - 1] == x + y[..|y| - 1];
      TrimEndConcat(x, y[..|y| - 1]);
    }
  }

  lemma {:induction false} AllTrimmedEnd(s: string)
    requires AllTrimmable(s)
    ensures TrimEnd(s) == []
  {
    if s != [] {
      AllTrimmedEnd(s[..|s| - 1]);
    }
  }

  lemma OuterTrimmed(pre: string, x: string, post: string)
    requires AllTrimmable(pre) && AllTrimmable(post)
    ensures Trim(pre + x + post) == Trim(x)
  {
    hide TrimStart, TrimEnd;
    AllTrimmed(pre);
    AllTrimmed(post);
    AllTrimmedEnd(post);
    assert pre + x + post == pre + (x + post);
    TrimStartConcat(pre, x + post);
    TrimStartConcat(x, post);
    TrimEndConcat(TrimStart(x), post);
  }

  lemma {:induction false} NonEmptyConcat(x: seq<string>, y: seq<string>)
    ensures NonEmpty(x + y) == NonEmpty(x) + NonEmpty(y)
  {
    if x == [] {
      assert x + y == y;
    } else {
      assert (x + y)[1..] == x[1..] + y;
      NonEmptyConcat(x[1..], y);
    }
  }

  lemma DoubledSplits(x: string, c: char, d: char, y: string)
    requires IsSeparator(c) && IsSeparator(d)
    ensures NonEmpty(Split(x + [c, d] + y)) == NonEmpty(Split(x + [c] + y))
  {
    hide Split, NonEmpty;
    assert x + [c, d] + y == x + [c] + ([] + [d] + y);
    SplitAtSeparator(x, c, [] + [d] + y);
    SplitAtSeparator([], d, y);
    SplitAtSeparator(x, c, y);
    NothingSplits();
    NonEmptyConcat(Split(x), Split([]) + Split(y));
    NonEmptyConcat(Split([]), Split(y));
    NonEmptyConcat(Split(x), Split(y));
    assert [] + NonEmpty(Split(y)) == NonEmpty(Split(y));
  }

  lemma NothingSplits()
    ensures NonEmpty(Split([])) == []
  {
    assert NonEmpty([""][1..]) == [];
  }

  lemma OneOrTwo(c: char, d: char, y: string)
    requires IsSeparator(c) && IsSeparator(d)
    ensures TrimStart([c, d] + y) == TrimStart([c] + y) == TrimStart(y)
    ensures TrimEnd([c, d]) == TrimEnd([c]) == []
  {
    assert ([c, d] + y)[1..] == [d] + y && ([d] + y)[1..] == y && ([c] + y)[1..] == y;
    AllTrimmedEnd([c, d]);
    AllTrimmedEnd([c]);
  }

  /** Two separators in a row read like one. */
  lemma DoubledBody(x: string, c: char, d: char, y: string)
    requires IsSeparator(c) && IsSeparator(d)
    ensures NonEmpty(Split(Trim(x + [c, d] + y))) == NonEmpty(Split(Trim(x + [c] + y)))
  {
    hide Split, NonEmpty, TrimStart, TrimEnd;
    OneOrTwo(c, d, y);
    assert x + [c, d] + y == x + ([c, d] + y) && x + [c] + y == x + ([c] + y);
    TrimStartConcat(x, [c, d] + y);
    TrimStartConcat(x, [c] + y);
    if TrimStart(x) != [] {
      var u, w := TrimStart(x), TrimEnd(y);
      assert u + ([c, d] + y) == (u + [c, d]) + y && u + ([c] + y) == (u + [c]) + y;
      TrimEndConcat(u + [c, d], y);
      TrimEndConcat(u + [c], y);
      TrimEndConcat(u, [c, d]);
      TrimEndConcat(u, [c]);
      if w != [] {
        DoubledSplits(u, c, d, w);
      }
    }
  }

  // ----- colons are kept, but for that of a scheme

  function Colons(s: string): nat {
    if s == [] then 0 else (if s[0] == ':' then 1 else 0) + Colons(s[1..])
  }

  function AllColons(segments: seq<string>): nat {
    if segments == [] then 0 else Colons(segments[0]) + AllColons(segments[1..])
  }

  lemma {:induction false} ColonsConcat(x: string, y: string)
    ensures Colons(x + y) == Colons(x) + Colons(y)
  {
    if x == [] {
      assert x + y == y;
    } else {
      assert (x + y)[1..] == x[1..] + y;
      ColonsConcat(x[1..], y);
    }
  }

  lemma OneColon(c: char)
    ensures Colons([c]) == if c == ':' then 1 else 0
  {
    assert Colons([c][1..]) == 0;
  }

  lemma {:induction false} TrimStartColons(s: string)
    ensures Colons(TrimStart(s)) == Colons(s)
  {
    if s != [] && IsTrimmed(s[0]) {
      TrimStartColons(s[1..]);
    }
  }

  lemma {:induction false} TrimEndColons(s: string)
    ensures Colons(TrimEnd(s)) == Colons(s)
  {
    if s != [] && IsTrimmed(s[|s| - 1]) {
      var front, c := s[..|s| - 1], s[|s| - 1];
      TrimEndColons(front);
      assert s == front + [c];
      ColonsConcat(front, [c]);
      OneColon(c);
    }
  }

  lemma {:induction false} SplitColons(s: string)
    ensures AllColons(Split(s)) == Colons(s)
  {
    if s == [] {
      assert AllColons([""][1..]) == 0;
    } else {
      SplitColons(s[1..]);
      var r := Split(s[1..]);
      if IsSeparator(s[0]) {
        assert Split(s)[1..] == r;
      } else {
        var first := [s[0]] + r[0];
        assert first[1..] == r[0] && Split(s) == [first] + r[1..] && Split(s)[1..] == r[1..];
        assert Colons(first) == (if s[0] == ':' then 1 else 0) + Colons(r[0]);
      }
    }
  }

  lemma {:induction false} NonEmptyColons(segments: seq<string>)
    ensures AllColons(NonEmpty(segments)) == AllColons(segments)
  {
    if segments != [] {
      NonEmptyColons(segments[1..]);
      var rest := NonEmpty(segments[1..]);
      if segments[0] != "" {
        assert NonEmpty(segments) == [segments[0]] + rest && NonEmpty(segments)[1..] == rest;
      } else {
        assert NonEmpty(segments) == [] + rest == rest;
      }
    }
  }

  lemma {:induction false} JoinedColons(segments: seq<string>)
    requires segments != []
    ensures Colons(Joined(segments, '_')) == AllColons(segments)
  {
    if |segments| == 1 {
      assert AllColons(segments[1..]) == 0;
    } else {
      JoinedColons(segments[1..]);
      var x, rest := segments[0], Joined(segments[1..], '_');
      ColonsConcat(x + ['_'], rest);
      ColonsConcat(x, ['_']);
      OneColon('_');
    }
  }

  function IdColons(id: PortNameId): nat {
    Colons(id.namespace) + Colons(id.servicegroup) + Colons(id.name)
  }

  lemma DefaultColons()
    ensures Colons("NS") == Colons("C") == Colons("E") == 0
  {
    assert "NS"[1..] == "S";
    OneColon('S');
  }

  lemma FieldsColons(segments: seq<string>)
    ensures IdColons(FromSegments(segments)) == AllColons(segments)
  {
    DefaultColons();
    hide Colons;
    if |segments| >= 3 {
      JoinedColons(segments[2..]);
    }
    if |segments| >= 2 {
      assert segments[1..][1..] == segments[2..];
      assert AllColons(segments) == Colons(segments[0]) + (Colons(segments[1]) + AllColons(segments[2..]));
    }
  }

  /** Whatever is read, every colon of the text behind a scheme is in a field, and no other. */
  lemma ParseKeepsColons(s: string)
    ensures IdColons(Parse(s)) == Colons(StripScheme(s))
  {
    hide Colons, AllColons, Split, NonEmpty, TrimStart, TrimEnd, StripScheme, FromSegments;
    var body := StripScheme(s);
    TrimStartColons(body);
    TrimEndColons(TrimStart(body));
    SplitColons(Trim(body));
    NonEmptyColons(Split(Trim(body)));
    FieldsColons(Segments(s));
  }

  lemma SchemeColon(s: string)
    ensures Colons(StripScheme(s)) == if HasScheme(s) then Colons(s) - 1 else Colons(s)
  {
    if HasScheme(s) {
      assert s == SCHEME + s[|SCHEME|..];
      ColonsConcat(SCHEME, s[|SCHEME|..]);
      SchemeHasOneColon();
    }
  }

  lemma SchemeHasOneColon()
    ensures Colons(SCHEME) == 1
  {
    assert SCHEME == "pgd" + ":" + "//";
    ColonsConcat("pgd" + ":", "//");
    ColonsConcat("pgd", ":");
    OneColon(':');
    NoColons("pgd");
    NoColons("//");
  }

  lemma {:induction false} NoColons(s: string)
    requires forall i :: 0 <= i < |s| ==> s[i] != ':'
    ensures Colons(s) == 0
  {
    if s != [] {
      NoColons(s[1..]);
    }
  }

  /** Texts with equally many colons that parse alike agree on having a scheme. */
  lemma SameParseSameScheme(s: string, t: string)
    requires Colons(s) == Colons(t) && Parse(s) == Parse(t)
    ensures HasScheme(s) <==> HasScheme(t)
  {
    hide Parse, Colons;
    ParseKeepsColons(s);
    ParseKeepsColons(t);
    SchemeColon(s);
    SchemeColon(t);
  }

  ghost predicate HasScheme(s: string) { SCHEME <= s }

  lemma NothingBeforeScheme(pre: string, rest: string)
    requires AllTrimmable(pre) && HasScheme(pre + rest)
    ensures pre == []
  {
    assert (pre + rest)[0] == SCHEME[0] && !IsTrimmed(SCHEME[0]);
  }

  /** Blanks and separators around a text do not matter exactly if they do not hide or complete a scheme. */
  lemma OuterIgnored(pre: string, x: string, post: string)
    requires AllTrimmable(pre) && AllTrimmable(post)
    ensures Parse(pre + x + post) == Parse(x) <==> (HasScheme(pre + x + post) <==> HasScheme(x))
    ensures Parse(SCHEME + pre + x + post) == Parse(SCHEME + x)
  {
    OuterColons(pre, x, post);
    if Parse(pre + x + post) == Parse(x) {
      SameParseSameScheme(pre + x + post, x);
    }
    OuterParses(pre, x, post);
  }

  lemma OuterColons(pre: string, x: string, post: string)
    requires AllTrimmable(pre) && AllTrimmable(post)
    ensures Colons(pre + x + post) == Colons(x)
  {
    hide Colons;
    NoColons(pre);
    NoColons(post);
    ColonsConcat(pre + x, post);
    ColonsConcat(pre, x);
  }

  lemma OuterParses(pre: string, x: string, post: string)
    requires AllTrimmable(pre) && AllTrimmable(post)
    ensures (HasScheme(pre + x + post) <==> HasScheme(x)) ==> Parse(pre + x + post) == Parse(x)
    ensures Parse(SCHEME + pre + x + post) == Parse(SCHEME + x)
  {
    hide Trim, Split, NonEmpty;
    var s := pre + x + post;
    OuterTrimmed(pre, x, post);
    assert (SCHEME + x)[|SCHEME|..] == x;
    assert SCHEME + pre + x + post == SCHEME + s && (SCHEME + s)[|SCHEME|..] == s;
    if HasScheme(s) && HasScheme(x) {
      assert pre + x + post == pre + (x + post);
      NothingBeforeScheme(pre, x + post);
      assert s[|SCHEME|..] == [] + x[|SCHEME|..] + post;
      OuterTrimmed([], x[|SCHEME|..], post);
    }
  }

  /** Nor does a separator that follows another one, exactly if it does not complete a scheme. */
  lemma DoubledIgnored(x: string, c: char, d: char, y: string)
    requires IsSeparator(c) && IsSeparator(d)
    ensures Parse(x + [c, d] + y) == Parse(x + [c] + y) <==> (HasScheme(x + [c, d] + y) <==> HasScheme(x + [c] + y))
    ensures Parse(SCHEME + x + [c, d] + y) == Parse(SCHEME + x + [c] + y)
  {
    DoubledColons(x, c, d, y);
    if Parse(x + [c, d] + y) == Parse(x + [c] + y) {
      SameParseSameScheme(x + [c, d] + y, x + [c] + y);
    }
    DoubledParses(x, c, d, y);
  }

  lemma DoubledColons(x: string, c: char, d: char, y: string)
    requires IsSeparator(c) && IsSeparator(d)
    ensures Colons(x + [c, d] + y) == Colons(x + [c] + y)
  {
    hide Colons;
    NoColons([c, d]);
    NoColons([c]);
    ColonsConcat(x + [c, d], y);
    ColonsConcat(x, [c, d]);
    ColonsConcat(x + [c], y);
    ColonsConcat(x, [c]);
  }

  lemma DoubledParses(x: string, c: char, d: char, y: string)
    requires IsSeparator(c) && IsSeparator(d)
    ensures (HasScheme(x + [c, d] + y) <==> HasScheme(x + [c] + y)) ==> Parse(x + [c, d] + y) == Parse(x + [c] + y)
    ensures Parse(SCHEME + x + [c, d] + y) == Parse(SCHEME + x + [c] + y)
  {
    hide Trim, Split, NonEmpty;
    var s, t := x + [c, d] + y, x + [c] + y;
    DoubledBody(x, c, d, y);
    assert SCHEME + x + [c, d] + y == SCHEME + s && SCHEME + x + [c] + y == SCHEME + t;
    assert (SCHEME + s)[|SCHEME|..] == s && (SCHEME + t)[|SCHEME|..] == t;
    if HasScheme(s) && HasScheme(t) {
      DoubledBehindScheme(x, c, d, y);
    }
  }

  lemma DoubledBehindScheme(x: string, c: char, d: char, y: string)
    requires IsSeparator(c) && IsSeparator(d) && HasScheme(x + [c, d] + y) && HasScheme(x + [c] + y)
    ensures NonEmpty(Split(Trim((x + [c, d] + y)[|SCHEME|..]))) == NonEmpty(Split(Trim((x + [c] + y)[|SCHEME|..])))
  {
    hide Trim, Split, NonEmpty;
    var s, t, n := x + [c, d] + y, x + [c] + y, |SCHEME|;
    if |x| >= n {
      assert s[n..] == x[n..] + [c, d] + y && t[n..] == x[n..] + [c] + y;
      DoubledBody(x[n..], c, d, y);
    } else {
      assert |x| >= 4 by {
        assert s[|x|] == c == SCHEME[|x|];
        assert forall i :: 0 <= i < 4 ==> !IsSeparator(SCHEME[i]);
      }
      var front := if |x| == 4 then [y[0]] else [d];
      assert IsTrimmed(front[0]) by { assert |x| == 4 ==> t[5] == y[0] == SCHEME[5]; }
      assert s[n..] == front + t[n..] + [];
      OuterTrimmed(front, t[n..], []);
    }
  }

  lemma NamedScheme()
    ensures Parse("pgd:/a") == PortNameId("pgd:", "a", "E") && Parse("pgd://a") == PortNameId("NS", "a", "E")
  {
    hide Parse, Tidy;
    var one, two := ["a"], ["pgd:", "a"];
    assert Tidy(one) && Tidy(two) by { TidyWitnesses(); }
    FieldsByPosition(one, '/');
    FieldsByPosition(two, '/');
    assert two[1..] == one;
    assert Joined(one, '/') == "a" && Joined(two, '/') == "pgd:" + ['/'] + "a" == "pgd:/a" && SCHEME + "a" == "pgd://a";
  }

  lemma TidyWitnesses()
    ensures Tidy(["a"]) && Tidy(["pgd:", "a"])
  {
  }

  /** That the condition is needed: behind a blank the scheme is read as a name. */
  lemma BlankHidesScheme()
    ensures Parse("pgd://a") == PortNameId("NS", "a", "E") && Parse(" pgd://a") == PortNameId("pgd:", "a", "E")
  {
    hide Parse;
    NamedScheme();
    var s, t := " pgd://a", " pgd:/a";
    assert s == " pgd:" + ['/', '/'] + "a" && t == " pgd:" + ['/'] + "a";
    assert s[0] != SCHEME[0] && t[0] != SCHEME[0] && "pgd:/a"[5] != SCHEME[5];
    DoubledIgnored(" pgd:", '/', '/', "a");
    assert t == " " + "pgd:/a" + "";
    OuterIgnored(" ", "pgd:/a", "");
  }

  // ----- what is printed

  /** The printed forms by position: the fields in order, divided by slashes, or behind the scheme by dots. */
  lemma PrintedByPosition(id: PortNameId)
    ensures var s, m, n := Display(id), |id.namespace|, |id.namespace| + 1 + |id.servicegroup|;
            && |s| == n + 1 + |id.name|
            && s[..m] == id.namespace && s[m] == '/' && s[m + 1..n] == id.servicegroup && s[n] == '/'
            && s[n + 1..] == id.name
    ensures var s, m, n := AsUrl(id), 6 + |id.namespace|, 7 + |id.namespace| + |id.servicegroup|;
            && |s| == n + 1 + |id.name|
            && s[..6] == "pgd://" && s[6..m] == id.namespace && s[m] == '.' && s[m + 1..n] == id.servicegroup && s[n] == '.'
            && s[n + 1..] == id.name
  {
    assert |SCHEME| == 6;
  }
}
