/** What the extraction rules of nlp-service/server.js do with lines their patterns were
    probably not written for: connector words without a word boundary, a single connector,
    "box", a line that is only a quantity and a connector, and the two kinds of bullet. */
module ExtractorCases {
  import opened Wrappers
  import opened Js
  import opened Extractor

  /** The connector pattern has no word boundary: a name starting with "x" or "X" loses that
      letter ("3 xylophones" is three "ylophones"). */
  lemma ConnectorWithoutBoundary(s: string)
    requires s != [] && LowerChar(s[0]) == 'x'
    ensures StripConnector(s) == DropSpaces(s[1..])
  {
    assert StartsWithIgnoringCase(s, Connectors[0]);
  }

  /** Only one connector goes: after "bottles" the rest stays, "of" included
      ("2 bottles of shampoo" is two "of shampoo"). */
  lemma OneConnectorOnly(rest: string)
    ensures StripConnector("bottles" + rest) == DropSpaces(rest)
  {
    var s := "bottles" + rest;
    assert s[0] == 'b' && s[1] == 'o';
    assert !StartsWithIgnoringCase(s, Connectors[0]);
    assert !StartsWithIgnoringCase(s, Connectors[1]);
    assert StartsWithIgnoringCase(s, Connectors[2]) by {
      assert forall i :: 0 <= i < 7 ==> s[i] == "bottles"[i];
    }
    assert FirstConnector(s, 0) == 2;
    assert |Connectors[2]| == 7;
    assert StripConnector(s) == DropSpaces(s[7..]);
    assert s[7..] == rest;
  }

  /** "box" is not a connector: `boxes?` asks for "boxe" at least, so "3 box cereal" keeps its
      "box". */
  lemma BoxIsNoConnector(rest: string)
    requires rest == [] || LowerChar(rest[0]) != 'e'
    ensures StripConnector("box" + rest) == "box" + rest
  {
    var s := "box" + rest;
    assert s[0] == 'b' && s[1] == 'o' && s[2] == 'x';
    NoConnectorFromBox(s, 0);
  }

  lemma {:induction false} NoConnectorFromBox(s: string, j: nat)
    requires j <= |Connectors| && |s| >= 3 && s[..3] == "box" && (|s| == 3 || LowerChar(s[3]) != 'e')
    ensures FirstConnector(s, j) == |Connectors|
    decreases |Connectors| - j
  {
    if j < |Connectors| {
      assert !StartsWithIgnoringCase(s, Connectors[j]) by {
        assert s[0] == 'b' && s[1] == 'o' && s[2] == 'x';
        if 3 < |s| { assert LowerChar(s[3]) != 'e'; }
      }
      NoConnectorFromBox(s, j + 1);
    }
  }

  /** A quantity followed only by a connector is still pushed, with an empty name. */
  lemma EmptyNamePushed(digits: string, spaces: string)
    requires digits != [] && AllDigits(digits) && AllSpace(spaces)
    ensures ParseLine(digits + spaces + "of") == Some(Entry("", DigitsValue(digits)))
  {
    OfIsAConnector();
    OfIsAName();
    QuantityLine(digits, spaces, "of");
  }

  /** "of" meets the requirements of the name part of a quantity line. */
  lemma OfIsAName()
    ensures !IsDigit("of"[0]) && IsTrimmed("of")
    ensures forall i :: 0 <= i < |"of"| ==> !IsLineTerminator("of"[i])
  {
    assert "of"[0] == 'o' && "of"[1] == 'f';
  }

  lemma OfIsAConnector()
    ensures Trim(StripConnector("of")) == []
  {
    OfIsSecondConnector();
    assert |Connectors[1]| == 2;
    assert "of"[2..] == [];
    assert StripConnector("of") == DropSpaces([]);
  }

  /** "of" does not start with "x", and is the second alternative. */
  lemma OfIsSecondConnector()
    ensures FirstConnector("of", 0) == 1
  {
    assert FirstConnector("of", 1) == 1 by {
      assert Connectors[1] == "of";
      assert StartsWithIgnoringCase("of", Connectors[1]);
    }
    assert Connectors[0] == "x" && "of"[0] == 'o' && LowerChar('o') == 'o';
    assert !StartsWithIgnoringCase("of", Connectors[0]);
  }

  /** A line starting with a character of the bullet class loses it and the spaces after it. */
  lemma BulletDropped(t: string)
    requires |t| >= 2 && IsTrimmed(t) && IsBullet(t[0])
    ensures ParseLine(t) == Some(Entry(Trim(DropSpaces(t[1..])), 1))
  {
    assert Trim(t) == t by { TrimTrimmed(t); }
    assert QuantityMatch(t) == None by { NoDigitsNoMatch(t); }
    assert Trim(DropSpaces(t[1..])) != [] by {
      assert t[1..][|t| - 2] == t[|t| - 1];
      assert !AllSpace(t[1..]);
    }
  }

  /** The round bullet '•' is not in the class as the file spells it, so it stays part of
      the name. */
  lemma RoundBulletKept(t: string)
    requires t != [] && IsTrimmed(t) && t[0] == '\U{2022}'
    ensures ParseLine(t) == Some(Entry(t, 1))
  {
    TrimTrimmed(t);
    NoDigitsNoMatch(t);
    ParseLineOfNoMatch(t);
  }

  lemma NoDigitsNoMatch(t: string)
    requires t != [] && !IsDigit(t[0])
    ensures QuantityMatch(t) == None
  {
    assert LeadingDigits(t) == 0;
  }
}
