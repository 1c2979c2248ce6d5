/** The column-name normalisation of `parse_contents`: every header is
    stripped of surrounding white space, has each underscore replaced by a
    space, and is title-cased. Characters follow Python's rules for the
    ASCII range. */
module ColumnNames {

  /** `str.isspace` on ASCII: tab, line feed, vertical tab, form feed,
      carriage return, the four separators 0x1C to 0x1F, and space. */
  predicate IsSpace(c: char)
  {
    9 <= c as int <= 13 || 28 <= c as int <= 32
  }

  predicate IsUpper(c: char)
  {
    'A' <= c <= 'Z'
  }

  predicate IsLower(c: char)
  {
    'a' <= c <= 'z'
  }

  /** The cased characters of ASCII. */
  predicate IsLetter(c: char)
  {
    IsUpper(c) || IsLower(c)
  }

  function ToUpper(c: char): (r: char)
    ensures IsLetter(r) == IsLetter(c) && (IsLetter(c) ==> IsUpper(r))
    ensures !IsLetter(c) ==> r == c
  {
    if IsLower(c) then (c as int - 32) as char else c
  }

  function ToLower(c: char): (r: char)
    ensures IsLetter(r) == IsLetter(c) && (IsLetter(c) ==> IsLower(r))
    ensures !IsLetter(c) ==> r == c
  {
    if IsUpper(c) then (c as int + 32) as char else c
  }

  /** A letter and its two cases fold to the same lower-case letter. */
  lemma CaseFold(c: char)
    ensures ToLower(ToUpper(c)) == ToLower(c)
    ensures ToLower(ToLower(c)) == ToLower(c)
    ensures ToUpper(ToLower(c)) == ToUpper(c)
    ensures ToUpper(ToUpper(c)) == ToUpper(c)
  {
  }

  /** Removes leading white space. */
  function TrimStart(s: string): (r: string)
    ensures |r| <= |s|
  {
    if s != [] && IsSpace(s[0]) then TrimStart(s[1..]) else s
  }

  /** Removes trailing white space. */
  function TrimEnd(s: string): (r: string)
    ensures |r| <= |s|
  {
    if s != [] && IsSpace(s[|s| - 1]) then TrimEnd(s[..|s| - 1]) else s
  }

  /** `str.strip()`. */
  function Strip(s: string): (r: string)
    ensures |r| <= |s|
  {
    TrimEnd(TrimStart(s))
  }

  /** TrimStart removes exactly the leading white space. */
  lemma {:induction false} TrimStartSpec(s: string)
    ensures var r := TrimStart(s);
      && r == s[|s| - |r|..]
      && (forall i :: 0 <= i < |s| - |r| ==> IsSpace(s[i]))
      && (r != [] ==> !IsSpace(r[0]))
  {
    if s != [] && IsSpace(s[0]) {
      TrimStartSpec(s[1..]);
    }
  }

  /** TrimEnd removes exactly the trailing white space. */
  lemma {:induction false} TrimEndSpec(s: string)
    ensures var r := TrimEnd(s);
      && r == s[..|r|]
      && (forall i :: |r| <= i < |s| ==> IsSpace(s[i]))
      && (r != [] ==> !IsSpace(r[|r| - 1]))
  {
    if s != [] && IsSpace(s[|s| - 1]) {
      TrimEndSpec(s[..|s| - 1]);
    }
  }

  /** Strip keeps the longest middle part that neither starts nor ends with
      white space; everything it cuts off is white space. */
  lemma {:induction false} StripSpec(s: string)
    ensures var r, k := Strip(s), |s| - |TrimStart(s)|;
      && k + |r| <= |s|
      && r == s[k..k + |r|]
      && (forall i :: 0 <= i < k ==> IsSpace(s[i]))
      && (forall i :: k + |r| <= i < |s| ==> IsSpace(s[i]))
      && (r != [] ==> !IsSpace(r[0]) && !IsSpace(r[|r| - 1]))
  {
    var t := TrimStart(s);
    var r := TrimEnd(t);
    var k := |s| - |t|;
    TrimStartSpec(s);
    TrimEndSpec(t);
    forall i | k + |r| <= i < |s| ensures IsSpace(s[i]) {
      assert s[i] == t[i - k];
    }
    if r != [] {
      assert r[0] == t[0];
    }
  }

  /** A name already without surrounding white space is left as it is. */
  lemma {:induction false} StripTrimmed(s: string)
    requires s != [] ==> !IsSpace(s[0]) && !IsSpace(s[|s| - 1])
    ensures Strip(s) == s
  {
  }

  /** `str.replace('_', ' ')`. */
  function ReplaceUnderscores(s: string): (r: string)
    ensures |r| == |s|
  {
    if s == [] then [] else [if s[0] == '_' then ' ' else s[0]] + ReplaceUnderscores(s[1..])
  }

  /** Every underscore becomes a space and nothing else changes. */
  lemma {:induction false} ReplaceUnderscoresSpec(s: string)
    ensures forall i :: 0 <= i < |s| ==> ReplaceUnderscores(s)[i] == if s[i] == '_' then ' ' else s[i]
  {
    if s != [] {
      ReplaceUnderscoresSpec(s[1..]);
    }
  }

  /** One character of `str.title()`: a letter after a letter becomes lower
      case, any other letter upper case, and every other character stays. */
  function TitleChar(c: char, afterLetter: bool): char
  {
    if IsLetter(c) then (if afterLetter then ToLower(c) else ToUpper(c)) else c
  }

  /** Title-casing a character changes at most its case. */
  lemma TitleCharFacts(c: char, afterLetter: bool)
    ensures IsLetter(TitleChar(c, afterLetter)) == IsLetter(c)
    ensures IsUpper(TitleChar(c, afterLetter)) <==> IsLetter(c) && !afterLetter
    ensures ToLower(TitleChar(c, afterLetter)) == ToLower(c)
    ensures TitleChar(TitleChar(c, afterLetter), afterLetter) == TitleChar(c, afterLetter)
    ensures !IsLetter(c) ==> TitleChar(c, afterLetter) == c
  {
    CaseFold(c);
  }

  /** `str.title()` from a point where the previous character is, or is not,
      a letter. */
  function TitleFrom(s: string, afterLetter: bool): (r: string)
    ensures |r| == |s|
  {
    if s == [] then []
    else [TitleChar(s[0], afterLetter)] + TitleFrom(s[1..], IsLetter(s[0]))
  }

  /** `str.title()`. */
  function Title(s: string): (r: string)
    ensures |r| == |s|
  {
    TitleFrom(s, false)
  }

  /** Each character is title-cased according to the character before it. */
  lemma {:induction false} TitleFromSpec(s: string, afterLetter: bool)
    ensures forall i :: 0 <= i < |s| ==>
      TitleFrom(s, afterLetter)[i] == TitleChar(s[i], if i == 0 then afterLetter else IsLetter(s[i - 1]))
  {
    if s != [] {
      var r, r' := TitleFrom(s, afterLetter), TitleFrom(s[1..], IsLetter(s[0]));
      TitleFromSpec(s[1..], IsLetter(s[0]));
      forall i | 0 <= i < |s|
        ensures r[i] == TitleChar(s[i], if i == 0 then afterLetter else IsLetter(s[i - 1]))
      {
        if i == 0 {
          assert r[0] == TitleChar(s[0], afterLetter);
        } else {
          assert r[i] == r'[i - 1];
          assert s[1..][i - 1] == s[i];
          if i > 1 {
            assert s[1..][i - 2] == s[i - 1];
          }
        }
      }
    }
  }

  lemma {:induction false} TitleSpec(s: string)
    ensures forall i :: 0 <= i < |s| ==> Title(s)[i] == TitleChar(s[i], i > 0 && IsLetter(s[i - 1]))
  {
    var r := TitleFrom(s, false);
    TitleFromSpec(s, false);
    forall i | 0 <= i < |s| ensures r[i] == TitleChar(s[i], i > 0 && IsLetter(s[i - 1])) {
      if i == 0 {
        assert r[0] == TitleChar(s[0], false);
      } else {
        assert r[i] == TitleChar(s[i], IsLetter(s[i - 1]));
      }
    }
    assert Title(s) == r;
  }

  /** Title case: a letter is upper case exactly when it starts the name or
      follows a non-letter. */
  predicate IsTitled(r: string)
  {
    forall i :: 0 <= i < |r| && IsLetter(r[i]) ==> (IsUpper(r[i]) <==> i == 0 || !IsLetter(r[i - 1]))
  }

  /** What `parse_contents` makes of one header: strip, then replace
      underscores, then title-case. */
  function NormalizeName(s: string): (r: string)
  {
    Title(ReplaceUnderscores(Strip(s)))
  }

  /** The normalised name has the stripped name's length, contains no
      underscore, and differs from the stripped name only in letter case and
      in underscores turned into spaces. */
  lemma {:induction false} NormalizeNameShape(s: string)
    ensures |NormalizeName(s)| == |Strip(s)|
    ensures forall i :: 0 <= i < |NormalizeName(s)| ==> NormalizeName(s)[i] != '_'
    ensures forall i :: 0 <= i < |NormalizeName(s)| ==>
      ToLower(NormalizeName(s)[i]) == ToLower(if Strip(s)[i] == '_' then ' ' else Strip(s)[i])
  {
    var t := Strip(s);
    var u := ReplaceUnderscores(t);
    var r := Title(u);
    ReplaceUnderscoresSpec(t);
    TitleSpec(u);
    forall i | 0 <= i < |r| ensures r[i] != '_' && ToLower(r[i]) == ToLower(u[i]) {
      TitleCharFacts(u[i], i > 0 && IsLetter(u[i - 1]));
    }
  }

  /** Title-casing any name gives a title-cased name. */
  lemma {:induction false} TitleIsTitled(u: string)
    ensures IsTitled(Title(u))
  {
    var r := Title(u);
    TitleSpec(u);
    forall i | 0 <= i < |r| && IsLetter(r[i]) ensures IsUpper(r[i]) <==> i == 0 || !IsLetter(r[i - 1]) {
      TitleCharFacts(u[i], i > 0 && IsLetter(u[i - 1]));
      if i > 0 {
        TitleCharFacts(u[i - 1], i > 1 && IsLetter(u[i - 2]));
      }
    }
  }

  /** The normalised name is title-cased. */
  lemma {:induction false} NormalizeNameTitled(s: string)
    ensures IsTitled(NormalizeName(s))
  {
    TitleIsTitled(ReplaceUnderscores(Strip(s)));
  }

  /** Title-casing a title-cased name changes nothing. */
  lemma {:induction false} TitleIdempotent(s: string)
    ensures Title(Title(s)) == Title(s)
  {
    var r := Title(s);
    var r' := Title(r);
    TitleSpec(s);
    TitleSpec(r);
    forall i | 0 <= i < |s| ensures r'[i] == r[i] {
      TitleCharFacts(s[i], i > 0 && IsLetter(s[i - 1]));
      if i > 0 {
        TitleCharFacts(s[i - 1], i > 1 && IsLetter(s[i - 2]));
      }
    }
    assert |r'| == |r|;
  }

  /** Normalising twice gives what normalising once does, provided the
      stripped name neither begins nor ends with an underscore. */
  lemma {:induction false} NormalizeNameIdempotent(s: string)
    requires Strip(s) != [] ==> Strip(s)[0] != '_' && Strip(s)[|Strip(s)| - 1] != '_'
    ensures NormalizeName(NormalizeName(s)) == NormalizeName(s)
  {
    var t := Strip(s);
    var u := ReplaceUnderscores(t);
    var r := Title(u);
    StripSpec(s);
    ReplaceUnderscoresSpec(t);
    TitleSpec(u);
    NormalizeNameShape(s);
    if r != [] {
      var n := |r| - 1;
      assert !IsSpace(u[0]) && !IsSpace(u[n]);
      TitleCharFacts(u[0], false);
      TitleCharFacts(u[n], n > 0 && IsLetter(u[n - 1]));
    }
    StripTrimmed(r);
    var ur := ReplaceUnderscores(r);
    ReplaceUnderscoresSpec(r);
    assert ur == r;
    TitleIdempotent(u);
  }

  /** Title-casing works left to right: a name can be title-cased piece by piece. */
  lemma {:induction false} TitleFromConcat(a: string, b: string, afterLetter: bool)
    ensures TitleFrom(a + b, afterLetter)
         == TitleFrom(a, afterLetter) + TitleFrom(b, if a == [] then afterLetter else IsLetter(a[|a| - 1]))
  {
    if a == [] {
      assert a + b == b;
    } else {
      assert (a + b)[1..] == a[1..] + b;
      TitleFromConcat(a[1..], b, IsLetter(a[0]));
    }
  }

  lemma {:induction false} ReplaceConcat(a: string, b: string)
    ensures ReplaceUnderscores(a + b) == ReplaceUnderscores(a) + ReplaceUnderscores(b)
  {
    if a == [] {
      assert a + b == b;
    } else {
      assert (a + b)[1..] == a[1..] + b;
      ReplaceConcat(a[1..], b);
    }
  }

  /** ... and not otherwise: "_x" becomes " X", which normalises to "X". */
  lemma NormalizeNameNotIdempotent()
    ensures NormalizeName("_x") == " X"
    ensures NormalizeName(" X") == "X"
  {
    StripTrimmed("_x");
    assert ReplaceUnderscores("_x") == " x";
    assert Title(" x") == " X";
    assert TrimStart(" X") == "X";
    StripTrimmed("X");
    assert ReplaceUnderscores("X") == "X";
    assert Title("X") == "X";
  }

  /** A name without underscores is left as it is by the replacement. */
  lemma {:induction false} ReplaceIdentity(s: string)
    requires '_' !in s
    ensures ReplaceUnderscores(s) == s
  {
    ReplaceUnderscoresSpec(s);
    forall i | 0 <= i < |s| ensures ReplaceUnderscores(s)[i] == s[i] {
      assert s[i] in s;
    }
  }

  /** Replacing through one underscore: the two sides are replaced separately. */
  lemma {:induction false} ReplaceAtUnderscore(a: string, b: string)
    ensures ReplaceUnderscores(a + "_" + b) == ReplaceUnderscores(a) + " " + ReplaceUnderscores(b)
  {
    ReplaceConcat(a + "_", b);
    ReplaceConcat(a, "_");
    assert ReplaceUnderscores("_") == " ";
  }

  /** A run of lower-case letters after a letter stays lower case. */
  lemma {:induction false} TitleLowerRun(w: string)
    requires forall x | x in w :: IsLower(x)
    ensures TitleFrom(w, true) == w
  {
    if w != [] {
      assert w[0] in w;
      assert forall x | x in w[1..] :: x in w;
      TitleLowerRun(w[1..]);
    }
  }

  /** A word whose letters after the first are lower case is title-cased by
      upper-casing its first letter. */
  lemma {:induction false} TitleWord(c: char, w: string)
    requires IsLetter(c) && forall x | x in w :: IsLower(x)
    ensures TitleFrom([c] + w, false) == [ToUpper(c)] + w
  {
    assert ([c] + w)[1..] == w;
    TitleLowerRun(w);
  }

  /** A space restarts title-casing: the words on either side are
      title-cased separately. */
  lemma {:induction false} TitleAtSpace(a: string, b: string)
    requires a != []
    ensures TitleFrom(a + " " + b, false) == TitleFrom(a, false) + " " + TitleFrom(b, false)
  {
    TitleFromConcat(a + " ", b, false);
    TitleFromConcat(a, " ", false);
    assert TitleFrom(" ", IsLetter(a[|a| - 1])) == " ";
  }

  /** A word of letters whose letters after the first are lower case has no
      underscore to replace, and title-casing upper-cases its first letter. */
  lemma {:induction false} PlainWord(s: string)
    requires s != [] && IsLetter(s[0]) && forall x | x in s[1..] :: IsLower(x)
    ensures ReplaceUnderscores(s) == s
    ensures TitleFrom(s, false) == [ToUpper(s[0])] + s[1..]
  {
    assert s == [s[0]] + s[1..];
    assert forall x | x in s :: x == s[0] || x in s[1..];
    ReplaceIdentity(s);
    TitleWord(s[0], s[1..]);
  }

  /** The words of the example headers: none holds an underscore, and each
      title-cases as `str.title()` does. Each word has a lemma of its own,
      because unfolding several string literals in one proof obligation
      (calling `PlainWord` directly from the `Replaced` and `Titled` lemmas
      below) exhausts the verifier's resources. */
  lemma SubWord()
    ensures ReplaceUnderscores("sub") == "sub" && TitleFrom("sub", false) == "Sub"
  {
    PlainWord("sub");
  }

  lemma RiskWord()
    ensures ReplaceUnderscores("risk") == "risk" && TitleFrom("risk", false) == "Risk"
  {
    PlainWord("risk");
  }

  lemma DriversWord()
    ensures ReplaceUnderscores("drivers") == "drivers" && TitleFrom("drivers", false) == "Drivers"
  {
    PlainWord("drivers");
  }

  lemma CapitalRiskWord()
    ensures ReplaceUnderscores("Risk") == "Risk" && TitleFrom("Risk", false) == "Risk"
  {
    PlainWord("Risk");
  }

  lemma CapitalDriversWord()
    ensures ReplaceUnderscores("Drivers") == "Drivers" && TitleFrom("Drivers", false) == "Drivers"
  {
    PlainWord("Drivers");
  }

  lemma ThresholdWord()
    ensures ReplaceUnderscores("Threshold") == "Threshold" && TitleFrom("Threshold", false) == "Threshold"
  {
    PlainWord("Threshold");
  }

  lemma SubRiskDriversWords()
    ensures "sub_risk_drivers" == "sub" + "_" + ("risk" + "_" + "drivers")
    ensures "Sub" + " " + ("Risk" + " " + "Drivers") == "Sub Risk Drivers"
  {
  }

  lemma SubRiskDriversReplaced()
    ensures ReplaceUnderscores(Strip("sub_risk_drivers")) == "sub" + " " + ("risk" + " " + "drivers")
  {
    StripTrimmed("sub_risk_drivers");
    SubRiskDriversWords();
    ReplaceAtUnderscore("sub", "risk" + "_" + "drivers");
    ReplaceAtUnderscore("risk", "drivers");
    SubWord();
    RiskWord();
    DriversWord();
  }

  lemma SubRiskDriversTitled()
    ensures Title("sub" + " " + ("risk" + " " + "drivers")) == "Sub" + " " + ("Risk" + " " + "Drivers")
  {
    TitleAtSpace("sub", "risk" + " " + "drivers");
    TitleAtSpace("risk", "drivers");
    SubWord();
    RiskWord();
    DriversWord();
  }

  /** The headers of the older sheets and of the current ones meet. */
  lemma SubRiskDriversExample()
    ensures NormalizeName("sub_risk_drivers") == "Sub Risk Drivers"
  {
    SubRiskDriversReplaced();
    SubRiskDriversTitled();
    SubRiskDriversWords();
  }

  lemma RiskDriversWords()
    ensures "risk_drivers" == "risk" + "_" + "drivers" && "Risk_Drivers" == "Risk" + "_" + "Drivers"
    ensures "Risk" + " " + "Drivers" == "Risk Drivers"
  {
  }

  lemma RiskDriversReplaced()
    ensures ReplaceUnderscores(Strip("risk_drivers")) == "risk" + " " + "drivers"
    ensures ReplaceUnderscores(Strip("Risk_Drivers")) == "Risk" + " " + "Drivers"
  {
    StripTrimmed("risk_drivers");
    StripTrimmed("Risk_Drivers");
    RiskDriversWords();
    ReplaceAtUnderscore("risk", "drivers");
    ReplaceAtUnderscore("Risk", "Drivers");
    RiskWord();
    DriversWord();
    CapitalRiskWord();
    CapitalDriversWord();
  }

  lemma RiskDriversTitled()
    ensures Title("risk" + " " + "drivers") == "Risk" + " " + "Drivers"
    ensures Title("Risk" + " " + "Drivers") == "Risk" + " " + "Drivers"
  {
    TitleAtSpace("risk", "drivers");
    TitleAtSpace("Risk", "Drivers");
    RiskWord();
    DriversWord();
    CapitalRiskWord();
    CapitalDriversWord();
  }

  lemma RiskDriversExample()
    ensures NormalizeName("risk_drivers") == "Risk Drivers"
    ensures NormalizeName("Risk_Drivers") == "Risk Drivers"
  {
    RiskDriversReplaced();
    RiskDriversTitled();
    RiskDriversWords();
  }

  lemma ThresholdStripped()
    ensures Strip("  Threshold ") == "Threshold"
  {
    assert TrimStart("  Threshold ") == "Threshold ";
    assert TrimEnd("Threshold ") == "Threshold";
  }

  lemma ThresholdExample()
    ensures NormalizeName("  Threshold ") == "Threshold"
  {
    ThresholdStripped();
    ThresholdWord();
  }

  /** The older underscore keys are never produced by the normalisation. */
  lemma {:induction false} UnderscoreKeysNeverProduced(s: string)
    ensures NormalizeName(s) != "risk_drivers" && NormalizeName(s) != "Risk_Drivers"
    ensures NormalizeName(s) != "sub_risk_drivers" && NormalizeName(s) != "risk_index"
  {
    NormalizeNameShape(s);
    var r := NormalizeName(s);
    assert "risk_drivers"[4] == '_' && "Risk_Drivers"[4] == '_';
    assert "sub_risk_drivers"[3] == '_' && "risk_index"[4] == '_';
  }

  /** No header normalises to `PV`, the key `calculate_cumulative_risk_index`
      reads: its second letter follows a letter, so title case lowers it. */
  lemma {:induction false} PVKeyNeverProduced(s: string)
    ensures NormalizeName(s) != "PV"
  {
    NormalizeNameTitled(s);
    assert !IsTitled("PV") by {
      assert IsLetter("PV"[0]) && IsLetter("PV"[1]) && IsUpper("PV"[1]);
    }
  }

  /** The three whole-column assignments of `parse_contents`: every header
      is normalised on its own, keeping the number and order of columns. */
  method NormalizeColumns(columns: seq<string>) returns (result: seq<string>)
    ensures |result| == |columns|
    ensures forall i :: 0 <= i < |columns| ==> result[i] == NormalizeName(columns[i])
  {
    result := seq(|columns|, i requires 0 <= i < |columns| => Strip(columns[i]));
    result := seq(|result|, i requires 0 <= i < |result| => ReplaceUnderscores(result[i]));
    result := seq(|result|, i requires 0 <= i < |result| => Title(result[i]));
  }
}
