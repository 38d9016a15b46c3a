/**
 * The version resolver (scripts/resolve_postgres_tag.py): from the tag
 * names a registry lists, keeps those of the form `17.a.b.c`, ranks them
 * by their numeric version and returns the image reference of the best.
 */
module VersionResolver {
  import opened Wrappers

  const Repo: string := "supabase/postgres"

  predicate IsDigit(c: char)
  {
    '0' <= c <= '9'
  }

  predicate AllDigits(s: string)
  {
    forall i :: 0 <= i < |s| ==> IsDigit(s[i])
  }

  /** Every part is a non-empty run of digits. */
  predicate NumericParts(parts: seq<string>)
  {
    forall i :: 0 <= i < |parts| ==> parts[i] != [] && AllDigits(parts[i])
  }

  /*
   * The tag pattern (`17`, then three dot-separated runs of digits, and
   * nothing else) as an automaton. `MatchGroups(s, k)`
   * matches `\d+(\.\d+){k-1}` against all of `s`; `MatchRest(s, k)` is the
   * same after at least one digit of the current group has been read.
   */

  predicate MatchGroups(s: string, k: nat)
    decreases |s|
  {
    |s| > 0 && IsDigit(s[0]) && MatchRest(s[1..], k)
  }

  predicate MatchRest(s: string, k: nat)
    decreases |s|
  {
    if s == [] then k == 1
    else if IsDigit(s[0]) then MatchRest(s[1..], k)
    else s[0] == '.' && k > 1 && MatchGroups(s[1..], k - 1)
  }

  /** `TAG_RE.match(t)` */
  predicate MatchesTagPattern(t: string)
  {
    |t| >= 3 && t[..3] == "17." && MatchGroups(t[3..], 3)
  }

  /** Python's `s.split(".")`. */
  function SplitDots(s: string): (parts: seq<string>)
    ensures |parts| >= 1
  {
    if s == [] then [""]
    else
      var rest := SplitDots(s[1..]);
      if s[0] == '.' then [""] + rest else [[s[0]] + rest[0]] + rest[1..]
  }

  /** The first part is what precedes the first dot; the remaining parts split what follows it. */
  lemma {:induction false} SplitDotsHead(s: string)
    ensures |SplitDots(s)[0]| <= |s| && s[..|SplitDots(s)[0]|] == SplitDots(s)[0]
    ensures |SplitDots(s)| > 1 ==>
              |SplitDots(s)[0]| < |s| && s[|SplitDots(s)[0]|] == '.'
              && SplitDots(s[|SplitDots(s)[0]| + 1..]) == SplitDots(s)[1..]
  {
    if s != [] && s[0] != '.' {
      SplitDotsHead(s[1..]);
      var h := SplitDots(s[1..])[0];
      if |SplitDots(s[1..])| > 1 {
        assert s[1..][|h| + 1..] == s[|h| + 2..];
      }
    }
  }

  /** The automaton accepts exactly the strings whose dot-separated parts are all non-empty digit runs. */
  lemma {:induction false} MatchSplit(s: string, k: nat)
    ensures MatchRest(s, k) <==>
              |SplitDots(s)| == k && AllDigits(SplitDots(s)[0]) && NumericParts(SplitDots(s)[1..])
    ensures MatchGroups(s, k) <==> |SplitDots(s)| == k && NumericParts(SplitDots(s))
    decreases |s|
  {
    var p := SplitDots(s);
    if s != [] {
      var q := SplitDots(s[1..]);
      MatchSplit(s[1..], k);
      if k > 0 {
        MatchSplit(s[1..], k - 1);
      }
      if s[0] == '.' {
        assert p == [""] + q;
        assert p[1..] == q;
      } else {
        assert p == [[s[0]] + q[0]] + q[1..];
        assert p[1..] == q[1..];
        if IsDigit(s[0]) {
          AllDigitsCons(s[0], q[0]);
          if NumericParts(p) {
            assert AllDigits(q[0]) by {
              forall i | 0 <= i < |q[0]| ensures IsDigit(q[0][i]) { assert q[0][i] == p[0][i + 1]; }
            }
            assert forall i :: 0 <= i < |q| - 1 ==> q[1..][i] == p[i + 1];
          }
          if |q| == k && AllDigits(q[0]) && NumericParts(q[1..]) {
            assert forall i :: 1 <= i < |p| ==> p[i] == q[1..][i - 1];
          }
        } else {
          assert p[0][0] == s[0];
        }
      }
    } else {
      assert p == [""];
    }
  }

  lemma AllDigitsCons(c: char, x: string)
    ensures AllDigits([c] + x) <==> IsDigit(c) && AllDigits(x)
  {
    if IsDigit(c) && AllDigits(x) {
      forall i | 0 <= i < |[c] + x| ensures IsDigit(([c] + x)[i]) {
        if i > 0 { assert ([c] + x)[i] == x[i - 1]; }
      }
    }
    if AllDigits([c] + x) {
      forall i | 0 <= i < |x| ensures IsDigit(x[i]) { assert x[i] == ([c] + x)[i + 1]; }
      assert ([c] + x)[0] == c;
    }
  }

  /** The reference reading of the pattern: four dot-separated digit runs, the first of them `17`. */
  predicate IsMajor17Version(t: string)
  {
    var parts := SplitDots(t);
    |parts| == 4 && parts[0] == "17" && NumericParts(parts[1..])
  }

  lemma TagPatternIffParts(t: string)
    ensures MatchesTagPattern(t) <==> IsMajor17Version(t)
  {
    var parts := SplitDots(t);
    if |t| >= 3 && t[..3] == "17." {
      var u := t[3..];
      assert t == ['1', '7', '.'] + u;
      assert t[2..][0] == '.' && t[2..][1..] == u;
      assert SplitDots(t[2..]) == [""] + SplitDots(u);
      assert t[1..][0] == '7' && t[1..][1..] == t[2..];
      var rest := SplitDots(t[2..]);
      assert rest[0] == "" && rest[1..] == SplitDots(u);
      assert ['7'] + rest[0] == "7";
      assert SplitDots(t[1..]) == ["7"] + SplitDots(u);
      var rest' := SplitDots(t[1..]);
      assert rest'[0] == "7" && rest'[1..] == SplitDots(u);
      assert ['1'] + rest'[0] == "17";
      assert t[0] == '1';
      assert parts == ["17"] + SplitDots(u);
      MatchSplit(u, 3);
      assert parts[1..] == SplitDots(u);
    }
    if IsMajor17Version(t) {
      SplitDotsHead(t);
      assert t[..2] == "17" && t[2] == '.';
      assert t[..3] == "17.";
      MatchSplit(t[3..], 3);
    }
  }

  /** `int(s)` for a run of ASCII digits. */
  function DecimalValue(s: string): nat
    requires AllDigits(s)
  {
    if s == [] then 0
    else DecimalValue(s[..|s| - 1]) * 10 + (s[|s| - 1] - '0') as nat
  }

  /** Leading zeros do not change the value. */
  lemma {:induction false} LeadingZero(s: string)
    requires AllDigits(s)
    ensures AllDigits("0" + s) && DecimalValue("0" + s) == DecimalValue(s)
  {
    if s != [] {
      LeadingZero(s[..|s| - 1]);
      assert ("0" + s)[..|"0" + s| - 1] == "0" + s[..|s| - 1];
    }
  }

  /** `parse_version(tag)`: the tuple of the integers between the dots. */
  function ParseVersion(t: string): (v: seq<nat>)
    requires MatchesTagPattern(t)
    ensures |v| == 4 && v[0] == 17
  {
    TagPatternIffParts(t);
    var parts := SplitDots(t);
    assert DecimalValue("17") == 17 by {
      assert "17"[..1] == "1";
      assert "1"[..0] == "";
    }
    seq(|parts|, i requires 0 <= i < |parts| => DecimalValue(parts[i]))
  }

  /** Python's `<` on tuples of integers: the first differing component decides; a proper prefix is smaller. */
  predicate TupleLess(a: seq<nat>, b: seq<nat>)
  {
    if a == [] then b != []
    else if b == [] then false
    else a[0] < b[0] || (a[0] == b[0] && TupleLess(a[1..], b[1..]))
  }

  lemma {:induction false} TupleLessIrreflexive(a: seq<nat>)
    ensures !TupleLess(a, a)
  {
    if a != [] {
      TupleLessIrreflexive(a[1..]);
    }
  }

  lemma {:induction false} TupleLessTransitive(a: seq<nat>, b: seq<nat>, c: seq<nat>)
    requires TupleLess(a, b) && TupleLess(b, c)
    ensures TupleLess(a, c)
  {
    if a != [] && b != [] && c != [] && a[0] == b[0] == c[0] {
      TupleLessTransitive(a[1..], b[1..], c[1..]);
    }
  }

  lemma {:induction false} TupleLessTotal(a: seq<nat>, b: seq<nat>)
    ensures TupleLess(a, b) || a == b || TupleLess(b, a)
  {
    if a != [] && b != [] && a[0] == b[0] {
      TupleLessTotal(a[1..], b[1..]);
      if a[1..] == b[1..] {
        assert a == [a[0]] + a[1..] && b == [b[0]] + b[1..];
      }
    }
  }

  predicate AllEligible(tags: seq<string>)
  {
    forall j :: 0 <= j < |tags| ==> MatchesTagPattern(tags[j])
  }

  /**
   * Python's `max` over the tags keyed by their versions: the index of the first tag whose
   * version no other tag exceeds. Python's `max` keeps the earlier item
   * on ties, so every tag before it has a strictly smaller version.
   */
  function BestIndex(tags: seq<string>): (k: nat)
    requires |tags| > 0 && AllEligible(tags)
    ensures k < |tags|
    ensures forall j :: 0 <= j < |tags| ==> !TupleLess(ParseVersion(tags[k]), ParseVersion(tags[j]))
    ensures forall j :: 0 <= j < k ==> TupleLess(ParseVersion(tags[j]), ParseVersion(tags[k]))
  {
    if |tags| == 1 then
      TupleLessIrreflexive(ParseVersion(tags[0]));
      0
    else
      var init := tags[..|tags| - 1];
      var last := |tags| - 1;
      var b := BestIndex(init);
      assert forall j :: 0 <= j < |init| ==> init[j] == tags[j];
      if TupleLess(ParseVersion(tags[b]), ParseVersion(tags[last])) then
        BestIsLast(tags, b);
        last
      else
        TupleLessIrreflexive(ParseVersion(tags[b]));
        b
  }

  lemma BestIsLast(tags: seq<string>, b: nat)
    requires |tags| > 1 && AllEligible(tags) && b < |tags| - 1
    requires forall j :: 0 <= j < |tags| - 1 ==> !TupleLess(ParseVersion(tags[b]), ParseVersion(tags[j]))
    requires TupleLess(ParseVersion(tags[b]), ParseVersion(tags[|tags| - 1]))
    ensures forall j :: 0 <= j < |tags| ==> !TupleLess(ParseVersion(tags[|tags| - 1]), ParseVersion(tags[j]))
    ensures forall j :: 0 <= j < |tags| - 1 ==> TupleLess(ParseVersion(tags[j]), ParseVersion(tags[|tags| - 1]))
  {
    var top := ParseVersion(tags[|tags| - 1]);
    var vb := ParseVersion(tags[b]);
    forall j | 0 <= j < |tags| - 1
      ensures TupleLess(ParseVersion(tags[j]), top)
    {
      var vj := ParseVersion(tags[j]);
      TupleLessTotal(vj, vb);
      if vj != vb {
        TupleLessTransitive(vj, vb, top);
      }
    }
    forall j | 0 <= j < |tags|
      ensures !TupleLess(top, ParseVersion(tags[j]))
    {
      var vj := ParseVersion(tags[j]);
      if j == |tags| - 1 {
        TupleLessIrreflexive(top);
      } else if TupleLess(top, vj) {
        TupleLessTransitive(vj, top, vj);
        TupleLessIrreflexive(vj);
      }
    }
  }

  /** The tag-filtering comprehension: the names `TAG_RE` matches, in listing order. */
  function EligibleTags(names: seq<string>): (tags: seq<string>)
    ensures AllEligible(tags)
    ensures forall t :: t in tags <==> t in names && MatchesTagPattern(t)
  {
    if names == [] then []
    else
      var t := names[|names| - 1];
      var init := EligibleTags(names[..|names| - 1]);
      assert forall u :: u in names <==> u in names[..|names| - 1] || u == t;
      init + (if MatchesTagPattern(t) then [t] else [])
  }

  /** Filtering a concatenation filters each part and keeps them in order. */
  lemma {:induction false} EligibleTagsAppend(a: seq<string>, b: seq<string>)
    ensures EligibleTags(a + b) == EligibleTags(a) + EligibleTags(b)
    decreases |b|
  {
    if b == [] {
      assert a + b == a;
    } else {
      var b' := b[..|b| - 1];
      assert (a + b)[..|a + b| - 1] == a + b';
      assert (a + b)[|a + b| - 1] == b[|b| - 1];
      EligibleTagsAppend(a, b');
    }
  }

  /** A single name is kept exactly when the pattern accepts it. */
  lemma EligibleTagsSingle(t: string)
    ensures EligibleTags([t]) == if MatchesTagPattern(t) then [t] else []
  {
    assert [t][..0] == [];
  }

  /** The listing the registry returned, or a failure to obtain one (transport error or non-success status). */
  datatype Listing = Fetched(names: seq<string>) | Unreachable

  datatype Failure = FetchFailed | NoEligibleTag

  /** `main` without its I/O: the image reference it prints, or why it exits with status 1. */
  function Resolve(listing: Listing): (r: Result<string, Failure>)
    ensures listing.Unreachable? ==> r == Err(FetchFailed)
    ensures listing.Fetched? ==>
              (r == Err(NoEligibleTag) <==> forall t :: t in listing.names ==> !MatchesTagPattern(t))
    ensures r.Ok? ==>
              listing.Fetched? && |r.value| > |Repo| + 1 && r.value[..|Repo| + 1] == Repo + ":"
              && var best := r.value[|Repo| + 1..];
                 best in listing.names && MatchesTagPattern(best)
                 && forall t :: t in listing.names && MatchesTagPattern(t) ==>
                      !TupleLess(ParseVersion(best), ParseVersion(t))
  {
    match listing
    case Unreachable => Err(FetchFailed)
    case Fetched(names) =>
      var tags := EligibleTags(names);
      if tags == [] then Err(NoEligibleTag)
      else
        var best := tags[BestIndex(tags)];
        assert (Repo + ":" + best)[|Repo| + 1..] == best;
        assert forall t :: t in tags ==> exists j :: 0 <= j < |tags| && tags[j] == t;
        Ok(Repo + ":" + best)
  }

  /** Where the k-th eligible tag sits in the listing, and that every eligible name before it is among the first k. */
  lemma {:induction false} EligibleIndex(names: seq<string>, k: nat) returns (m: nat)
    requires k < |EligibleTags(names)|
    ensures m < |names| && names[m] == EligibleTags(names)[k]
    ensures forall j :: 0 <= j < m && MatchesTagPattern(names[j]) ==> names[j] in EligibleTags(names)[..k]
  {
    var init := names[..|names| - 1];
    var e := EligibleTags(init);
    assert forall j :: 0 <= j < |init| ==> init[j] == names[j];
    if k < |e| {
      m := EligibleIndex(init, k);
      assert EligibleTags(names)[..k] == e[..k];
    } else {
      m := |names| - 1;
      assert EligibleTags(names)[..k] == e;
      forall j | 0 <= j < m && MatchesTagPattern(names[j]) ensures names[j] in e {
        assert names[j] in init;
      }
    }
  }

  /**
   * On success the chosen tag is, among the listed names the pattern
   * accepts, the first one whose version no other exceeds: every eligible
   * name listed before it has a strictly smaller version.
   */
  lemma ResolvePicksFirstBest(names: seq<string>) returns (m: nat)
    requires exists t :: t in names && MatchesTagPattern(t)
    ensures m < |names| && MatchesTagPattern(names[m])
    ensures Resolve(Fetched(names)) == Ok(Repo + ":" + names[m])
    ensures forall j :: 0 <= j < |names| && MatchesTagPattern(names[j]) ==>
              !TupleLess(ParseVersion(names[m]), ParseVersion(names[j]))
    ensures forall j :: 0 <= j < m && MatchesTagPattern(names[j]) ==>
              TupleLess(ParseVersion(names[j]), ParseVersion(names[m]))
  {
    var tags := EligibleTags(names);
    var t :| t in names && MatchesTagPattern(t);
    assert t in tags;
    var k := BestIndex(tags);
    m := EligibleIndex(names, k);
    forall j | 0 <= j < |names| && MatchesTagPattern(names[j])
      ensures !TupleLess(ParseVersion(names[m]), ParseVersion(names[j]))
    {
      assert names[j] in tags;
      var i :| 0 <= i < |tags| && tags[i] == names[j];
    }
    forall j | 0 <= j < m && MatchesTagPattern(names[j])
      ensures TupleLess(ParseVersion(names[j]), ParseVersion(names[m]))
    {
      var i :| 0 <= i < k && tags[..k][i] == names[j];
      assert tags[i] == names[j];
    }
  }

  lemma {:induction false} SplitDotsJoin(x: string, y: string)
    requires '.' !in x
    ensures SplitDots(x + "." + y) == [x] + SplitDots(y)
    ensures SplitDots(x) == [x]
  {
    if x == [] {
      assert ("." + y)[1..] == y;
    } else {
      SplitDotsJoin(x[1..], y);
      assert (x + "." + y)[1..] == x[1..] + "." + y;
      assert [x[0]] + x[1..] == x;
    }
  }

  lemma DigitsHaveNoDot(x: string)
    requires AllDigits(x)
    ensures '.' !in x
  {
  }

  /** The tag `17.a.b.c`. */
  function TagOf(a: string, b: string, c: string): string
  {
    "17" + "." + (a + "." + (b + "." + c))
  }

  lemma SplitFourParts(a: string, b: string, c: string)
    requires AllDigits(a) && AllDigits(b) && AllDigits(c)
    ensures SplitDots(TagOf(a, b, c)) == ["17", a, b, c]
  {
    DigitsHaveNoDot(a);
    DigitsHaveNoDot(b);
    DigitsHaveNoDot(c);
    assert SplitDots(b + "." + c) == [b, c] by {
      SplitDotsJoin(b, c);
      SplitDotsJoin(c, "");
    }
    assert SplitDots(a + "." + (b + "." + c)) == [a, b, c] by {
      SplitDotsJoin(a, b + "." + c);
    }
    SplitDotsJoin("17", a + "." + (b + "." + c));
  }

  /** The version of an eligible tag is the value of each of its four parts. */
  lemma ParseVersionParts(t: string) returns (parts: seq<string>)
    requires MatchesTagPattern(t)
    ensures parts == SplitDots(t) && |parts| == 4 && parts[0] == "17"
    ensures AllDigits(parts[1]) && AllDigits(parts[2]) && AllDigits(parts[3])
    ensures ParseVersion(t) == [17, DecimalValue(parts[1]), DecimalValue(parts[2]), DecimalValue(parts[3])]
  {
    TagPatternIffParts(t);
    parts := SplitDots(t);
    assert parts[1..][0] == parts[1] && parts[1..][1] == parts[2] && parts[1..][2] == parts[3];
    var v := ParseVersion(t);
    var w: seq<nat> := [17, DecimalValue(parts[1]), DecimalValue(parts[2]), DecimalValue(parts[3])];
    assert forall i :: 0 <= i < 4 ==> v[i] == w[i];
  }

  /** A tag built from three digit runs is eligible, and its version is read off the runs. */
  lemma VersionOf(a: string, b: string, c: string)
    requires a != [] && b != [] && c != [] && AllDigits(a) && AllDigits(b) && AllDigits(c)
    ensures MatchesTagPattern(TagOf(a, b, c))
    ensures ParseVersion(TagOf(a, b, c)) == [17, DecimalValue(a), DecimalValue(b), DecimalValue(c)]
  {
    var t := TagOf(a, b, c);
    SplitFourParts(a, b, c);
    assert MatchesTagPattern(t) by {
      assert SplitDots(t)[1..] == [a, b, c];
      TagPatternIffParts(t);
    }
    var parts := ParseVersionParts(t);
  }
}
