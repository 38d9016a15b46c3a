/**
 * Worked listings for the version resolver: numeric rather than textual
 * ordering, tags of other majors ignored, and the first of equal versions
 * kept.
 */
module ResolverExamples {
  import opened Wrappers
  import opened VersionResolver

  lemma Zero()
    ensures AllDigits("0") && DecimalValue("0") == 0
  {
    assert "0"[..0] == "";
  }

  lemma One()
    ensures AllDigits("1") && DecimalValue("1") == 1
  {
    assert "1"[..0] == "";
  }

  lemma Two()
    ensures AllDigits("2") && DecimalValue("2") == 2
  {
    assert "2"[..0] == "";
  }

  lemma Nine()
    ensures AllDigits("9") && DecimalValue("9") == 9
  {
    assert "9"[..0] == "";
  }

  lemma Ten()
    ensures AllDigits("10") && DecimalValue("10") == 10
  {
    One();
    assert "10"[..1] == "1";
  }

  lemma Version_17_2_0_1()
    ensures MatchesTagPattern("17.2.0.1") && ParseVersion("17.2.0.1") == [17, 2, 0, 1]
  {
    Zero();
    One();
    Two();
    VersionOf("2", "0", "1");
    assert TagOf("2", "0", "1") == "17.2.0.1";
  }

  lemma Version_17_10_0_0()
    ensures MatchesTagPattern("17.10.0.0") && ParseVersion("17.10.0.0") == [17, 10, 0, 0]
  {
    Zero();
    Ten();
    VersionOf("10", "0", "0");
    assert TagOf("10", "0", "0") == "17.10.0.0";
  }

  lemma Version_17_9_9_9()
    ensures MatchesTagPattern("17.9.9.9") && ParseVersion("17.9.9.9") == [17, 9, 9, 9]
  {
    Nine();
    VersionOf("9", "9", "9");
    assert TagOf("9", "9", "9") == "17.9.9.9";
  }

  lemma Version_17_01_0_0()
    ensures MatchesTagPattern("17.01.0.0") && ParseVersion("17.01.0.0") == [17, 1, 0, 0]
  {
    Zero();
    One();
    LeadingZero("1");
    assert "0" + "1" == "01";
    VersionOf("01", "0", "0");
    assert TagOf("01", "0", "0") == "17.01.0.0";
  }

  lemma Version_17_1_0_0()
    ensures MatchesTagPattern("17.1.0.0") && ParseVersion("17.1.0.0") == [17, 1, 0, 0]
  {
    Zero();
    One();
    VersionOf("1", "0", "0");
    assert TagOf("1", "0", "0") == "17.1.0.0";
  }

  /** `17.10.0.0` ranks above `17.9.9.9` although it sorts before it as text. */
  lemma {:induction false} NumericNotLexical()
    ensures MatchesTagPattern("17.9.9.9") && MatchesTagPattern("17.10.0.0")
    ensures TupleLess(ParseVersion("17.9.9.9"), ParseVersion("17.10.0.0"))
  {
    Version_17_9_9_9();
    Version_17_10_0_0();
    assert TupleLess([17, 9, 9, 9], [17, 10, 0, 0]);
  }

  const Mixed: seq<string> := ["17.2.0.1", "17.10.0.0", "17.9.9.9", "16.9.9.9", "18.0.0.0"]

  lemma MixedVersions()
    ensures MatchesTagPattern(Mixed[0]) && ParseVersion(Mixed[0]) == [17, 2, 0, 1]
    ensures MatchesTagPattern(Mixed[1]) && ParseVersion(Mixed[1]) == [17, 10, 0, 0]
    ensures MatchesTagPattern(Mixed[2]) && ParseVersion(Mixed[2]) == [17, 9, 9, 9]
    ensures !MatchesTagPattern(Mixed[3]) && !MatchesTagPattern(Mixed[4])
  {
    Version_17_2_0_1();
    Version_17_10_0_0();
    Version_17_9_9_9();
    assert Mixed[3][..3] == "16.";
    assert Mixed[4][..3] == "18.";
  }

  /** Tags of majors 16 and 18 are ignored and `17.10.0.0` outranks `17.9.9.9` and `17.2.0.1`. */
  lemma {:induction false} MixedListing()
    ensures Resolve(Fetched(Mixed)) == Ok(Repo + ":" + "17.10.0.0")
  {
    MixedVersions();
    var m := ResolvePicksFirstBest(Mixed);
    assert m != 3 && m != 4;
    assert !TupleLess(ParseVersion(Mixed[m]), ParseVersion(Mixed[1]));
    assert m != 0 by {
      assert TupleLess([17, 2, 0, 1], [17, 10, 0, 0]);
    }
    assert m != 2 by {
      assert TupleLess([17, 9, 9, 9], [17, 10, 0, 0]);
    }
  }

  /** Equal versions: the tag listed first wins. */
  lemma {:induction false} TieKeepsFirst()
    ensures Resolve(Fetched(["17.01.0.0", "17.1.0.0"])) == Ok(Repo + ":" + "17.01.0.0")
  {
    var names := ["17.01.0.0", "17.1.0.0"];
    Version_17_01_0_0();
    Version_17_1_0_0();
    assert Resolve(Fetched(names)) == Ok(Repo + ":" + names[0]) by {
      var m := ResolvePicksFirstBest(names);
      assert m == 0;
    }
  }

  /** A listing without any `17.x.y.z` tag fails. */
  lemma NoMajor17()
    ensures Resolve(Fetched(["16.9.9.9", "latest"])) == Err(NoEligibleTag)
  {
    var names := ["16.9.9.9", "latest"];
    assert !MatchesTagPattern(names[0]) by {
      assert names[0][..3] == "16.";
    }
    assert !MatchesTagPattern(names[1]) by {
      assert names[1][..3] == "lat";
    }
    assert forall t :: t in names ==> !MatchesTagPattern(t);
  }
}
