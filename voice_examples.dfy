/** What the parser's stages give for the sample phrase the voice sale
    dialog shows its users (src/components/VoiceSaleModal.tsx:280), and what
    the whole parse gives over the seed catalogue
    (src/lib/initializeProducts.ts:6-12). */
module VoiceExamples {
  import opened Wrappers
  import opened Folds
  import opened SalesTypes
  import opened Text
  import opened VoicePatterns
  import opened VoiceParser

  const Sample: string := "Uma coxinha para João Félix no Pix"

  /** Pieces of the lower-cased phrase. */
  const Dish: string := " coxinha "
  const ToCustomer: string := "para joão félix"
  const ByPix: string := " no pix"

  /** Lower-cased, the phrase opens with "uma". */
  lemma SampleUma()
    ensures OccursAt(Lower(Sample), 0, "uma")
  {
    var l := Lower(Sample);
    assert l[0] == 'u' && l[1] == 'm' && l[2] == 'a';
    assert l[0..3] == "uma";
  }

  /** Lower-cased, the phrase closes with "pix". */
  lemma SamplePix()
    ensures OccursAt(Lower(Sample), 31, "pix")
  {
    var l := Lower(Sample);
    assert l[31] == 'p' && l[32] == 'i' && l[33] == 'x';
    assert l[31..34] == "pix";
  }

  /** "uma" is the first vocabulary word and it opens the phrase: one
      item. */
  lemma SampleQuantity()
    ensures ExtractQuantity(Sample) == 1
  {
    SampleUma();
    QuantityFromWord(Sample, 0);
  }

  /** "pix" closes the phrase: paid by PIX. */
  lemma SamplePayment()
    ensures ExtractPaymentMethod(Sample) == Some(Pix)
  {
    SamplePix();
  }

  /** "para" stands as a word at 12. */
  lemma SampleKeyword()
    ensures Boundary(Sample, 12) && LiteralAt(Sample, 12, "para")
  {
    assert Sample[11] == ' ' && Sample[12] == 'p';
    assert Sample[12..16] == "para";
    forall i | 0 <= i < 4 ensures LowerChar(Sample[12 + i]) == LowerChar("para"[i]) {
      assert Sample[12 + i] == Sample[12..16][i];
    }
  }

  /** One space follows it. */
  lemma SampleSpaces()
    ensures SpaceRunEnd(Sample, 16) == 17
  {
    assert SpaceRunEnd(Sample, 17) == 17;
  }

  /** The name characters run on at least up to 27. */
  lemma SampleGroupRun()
    ensures 27 <= NameRunEnd(Sample, 17)
  {
    assert NameRun(Sample, 17, 27);
    RunEnds(Sample, 17, 27);
  }

  /** " no " follows 27, so a name may end there. */
  lemma SampleEnd()
    ensures EndsName(Sample, 27)
  {
    var s := Sample;
    assert Stops[0] == "no";
    assert LiteralAt(s, 28, "no");
    assert IsSpace(s[30]);
    assert StopAt(s, 28, 0);
    assert StopAhead(s, 28);
  }

  /** "para" at 12, the spaces 16..17 and the group 17..27 form a match of
      the first customer pattern. */
  lemma SampleMatchesAt()
    ensures NameMatch(Sample, NameLeads[0], NameEnds(Sample), 12, 17, 27)
  {
    assert NameLeads[0] == "para";
    SampleKeyword();
    SampleSpaces();
    SampleGroupRun();
    SampleEnd();
  }

  /** A literal whose first character differs does not occur at k. */
  lemma NotLiteralAt(s: string, k: int, lit: string)
    requires 0 <= k < |s| && |lit| > 0 && LowerChar(s[k]) != LowerChar(lit[0])
    ensures !LiteralAt(s, k, lit)
  {
    assert k + 0 == k;
  }

  /** No match of the first pattern starts before 12: "para" is nowhere
      earlier. */
  lemma SampleNoEarlier()
    ensures forall k2, e2, g2 :: k2 < 12 ==> !NameMatch(Sample, NameLeads[0], NameEnds(Sample), k2, e2, g2)
  {
    var s := Sample;
    assert NameLeads[0] == "para";
    forall k2 | 0 <= k2 < 12 ensures !LiteralAt(s, k2, "para") {
      assert s[k2] != 'p' && s[k2] != 'P';
      NotLiteralAt(s, k2, "para");
    }
  }

  /** After "para" at 12 the run of spaces is the one at 16. */
  lemma SampleNoLongerSpaces()
    ensures forall e2, g2 :: 17 < e2 ==> !NameMatch(Sample, NameLeads[0], NameEnds(Sample), 12, e2, g2)
  {
    var s := Sample;
    assert NameLeads[0] == "para";
    assert SpaceRunEnd(s, 17) == 17;
    assert SpaceRunEnd(s, 16) == 17;
  }

  /** No shorter group ends a name: the only space inside "João Félix" is
      not followed by a stop word. */
  lemma SampleNoShorter()
    ensures forall g2 :: g2 < 27 ==> !NameMatch(Sample, NameLeads[0], NameEnds(Sample), 12, 17, g2)
  {
    var s := Sample;
    assert NameLeads[0] == "para";
    assert forall g2 :: 18 <= g2 < 27 && g2 != 21 ==> !IsSpace(s[g2]);
    assert !StopsAt(s, 22);
    assert !StopAhead(s, 22);
    assert !EndsName(s, 21);
  }

  /** The phrase's customer match: "para" at 12, the group "João Félix" at
      17..27. */
  lemma SampleNameMatch()
    ensures PickedMatch(Sample, 0, 12, 17, 27)
  {
    SampleMatchesAt();
    SampleNoEarlier();
    SampleNoLongerSpaces();
    SampleNoShorter();
  }

  /** The group is the name. */
  lemma SampleGroup()
    ensures Sample[17..27] == "João Félix"
  {
  }

  /** The name has no white space around it. */
  lemma SampleTrim()
    ensures Trim("João Félix") == "João Félix"
  {
    var name := "João Félix";
    assert !IsSpace(name[0]) && !IsSpace(name[|name| - 1]);
  }

  /** The name splits into its two words. */
  lemma SampleSplit()
    ensures Split("João Félix", ' ') == ["João", "Félix"]
  {
    var words := ["João", "Félix"];
    assert Join(words, ' ') == "João Félix";
    SplitJoin(words, ' ');
  }

  /** Both words of the name are already title-cased. */
  lemma SampleWordsTitled()
    ensures TitleWord("João") == "João" && TitleWord("Félix") == "Félix"
  {
    var a, b := "oão", "élix";
    assert Lower(a) == a by {
      forall i | 0 <= i < |a| ensures Lower(a)[i] == a[i] {
      }
    }
    assert Lower(b) == b by {
      forall i | 0 <= i < |b| ensures Lower(b)[i] == b[i] {
      }
    }
    assert "João"[1..] == a && "Félix"[1..] == b;
  }

  /** The two words title-cased are the words themselves. */
  lemma SampleWordsMapped()
    ensures var words := ["João", "Félix"];
            seq(|words|, k requires 0 <= k < |words| => TitleWord(words[k])) == words
  {
    var words := ["João", "Félix"];
    SampleWordsTitled();
    var titled := seq(|words|, k requires 0 <= k < |words| => TitleWord(words[k]));
    assert titled[0] == words[0] && titled[1] == words[1];
  }

  /** Joining the two words gives the name back. */
  lemma SampleJoin()
    ensures Join(["João", "Félix"], ' ') == "João Félix"
  {
  }

  /** The name title-cased is itself. */
  lemma NameTitle()
    ensures TitleCase("João Félix") == "João Félix"
  {
    SampleTrim();
    SampleSplit();
    SampleWordsMapped();
    SampleJoin();
  }

  /** The group title-cased is "João Félix". */
  lemma SampleTitle()
    ensures TitleCase(Sample[17..27]) == "João Félix"
  {
    SampleGroup();
    NameTitle();
  }

  /** The phrase names João Félix as its customer. */
  lemma SampleCustomer()
    ensures ExtractCustomerName(Sample) == "João Félix"
  {
    SampleNameMatch();
    CustomerFromMatch(Sample, 0, 12, 17, 27);
    SampleTitle();
  }

  /** The phrase in four pieces: the article, the dish, the customer and the
      payment. */
  lemma SamplePieces()
    ensures Sample == "Uma" + Dish + "para João Félix" + " no Pix"
  {
  }

  /** Lower-cased, the article is "uma". */
  lemma LowerUma()
    ensures Lower("Uma") == "uma"
  {
    assert Lower("Uma")[0] == 'u';
  }

  /** The dish piece is already lower case. */
  lemma LowerDish()
    ensures Lower(Dish) == Dish
  {
    forall i | 0 <= i < |Dish| ensures Lower(Dish)[i] == Dish[i] {
    }
  }

  /** Lower-cased, the customer piece is "para joão félix". */
  lemma LowerToCustomer()
    ensures Lower("para João Félix") == ToCustomer
  {
    var s := "para João Félix";
    forall i | 0 <= i < |s| ensures Lower(s)[i] == ToCustomer[i] {
    }
  }

  /** Lower-cased, the payment piece is " no pix". */
  lemma LowerByPix()
    ensures Lower(" no Pix") == ByPix
  {
    var s := " no Pix";
    forall i | 0 <= i < |s| ensures Lower(s)[i] == ByPix[i] {
    }
  }

  /** The lower-cased phrase, piece by piece. */
  lemma SampleLower()
    ensures Lower(Sample) == "uma" + Dish + ToCustomer + ByPix
  {
    SamplePieces();
    LowerAppend("Uma" + Dish + "para João Félix", " no Pix");
    LowerAppend("Uma" + Dish, "para João Félix");
    LowerAppend("Uma", Dish);
    LowerUma();
    LowerDish();
    LowerToCustomer();
    LowerByPix();
  }

  /** For one item the article is removed: "uma" opens the text and no other
      "u" is left in it. */
  lemma ArticleStripped()
    ensures RemoveAll("uma" + Dish + ToCustomer + ByPix, Article) == Dish + ToCustomer + ByPix
  {
    var l := "uma" + Dish + ToCustomer + ByPix;
    ArticleAtStart();
    ArticleNowhereElse();
    assert RemoveFrom(l, Article, 0) == RemoveFrom(l, Article, 3);
    assert l[3..] == Dish + ToCustomer + ByPix;
  }

  /** "uma" matches the article pattern at 0, up to 3. */
  lemma ArticleAtStart()
    ensures MatchEnd("uma" + Dish + ToCustomer + ByPix, Article, 0) == Some(3)
  {
    var l := "uma" + Dish + ToCustomer + ByPix;
    assert l[0] == 'u' && l[1] == 'm' && l[2] == 'a' && l[3] == ' ';
    assert LiteralAt(l, 0, "uma");
  }

  /** No other "u" follows, so the article matches nowhere after 3. */
  lemma ArticleNowhereElse()
    ensures NoMatchFrom("uma" + Dish + ToCustomer + ByPix, Article, 3)
  {
    var rest := Dish + ToCustomer + ByPix;
    var l := "uma" + Dish + ToCustomer + ByPix;
    assert l == "uma" + rest;
    assert 'u' !in rest && 'U' !in rest;
    forall k | 3 <= k < |l| ensures MatchEnd(l, Article, k).None? {
      assert l[k] == rest[k - 3] && rest[k - 3] in rest;
      ArticleNeedsU(l, k);
    }
  }

  /** The lower-cased name sits at 14 of the text left by the first removal. */
  lemma CustomerLiteral()
    ensures LiteralAt(Dish + ToCustomer + ByPix, 14, "João Félix")
  {
    var t1 := Dish + ToCustomer + ByPix;
    var n := "João Félix";
    forall i | 0 <= i < |n| ensures LowerChar(t1[14 + i]) == LowerChar(n[i]) {
      assert t1[14 + i] == ToCustomer[5 + i];
    }
  }

  /** "para", one space and the name match the customer pattern at 9. */
  lemma CustomerMatchAt()
    ensures MatchEnd(Dish + ToCustomer + ByPix, Named("João Félix"), 9) == Some(24)
  {
    var t1 := Dish + ToCustomer + ByPix;
    CustomerLead();
    CustomerSpaced();
    assert NamedFrom(t1, 9, "João Félix", 0) == Some(24);
  }

  /** "para" starts a word at 9. */
  lemma CustomerLead()
    ensures Boundary(Dish + ToCustomer + ByPix, 9)
    ensures LiteralAt(Dish + ToCustomer + ByPix, 9, NameLeads[0])
  {
    var t1 := Dish + ToCustomer + ByPix;
    assert t1[8] == ' ' && t1[9] == 'p' && t1[10] == 'a' && t1[11] == 'r' && t1[12] == 'a';
  }

  /** After "para", one space and then the name, which ends at 24 before a
      space. */
  lemma CustomerSpaced()
    ensures SpacesPlus(Dish + ToCustomer + ByPix, 13, "João Félix") == Some(24)
  {
    var t1 := Dish + ToCustomer + ByPix;
    var n := "João Félix";
    assert t1[13] == ' ' && t1[14] == 'j' && t1[23] == 'x' && t1[24] == ' ';
    assert SpaceRunEnd(t1, 13) == 14;
    CustomerLiteral();
    assert SpacedLiteral(t1, 14, 14, n) == Some(24);
  }

  /** The customer is removed with the "para" before it: no "p" or "d"
      starts a pattern earlier. */
  lemma CustomerStripped()
    ensures RemoveAll(Dish + ToCustomer + ByPix, Named("João Félix")) == Dish + ByPix
  {
    var t1 := Dish + ToCustomer + ByPix;
    var pat := Named("João Félix");
    CustomerNotBefore();
    CustomerMatchAt();
    assert RemoveFrom(t1, pat, 9) == RemoveFrom(t1, pat, 24);
    CustomerNotAfter();
  }

  /** Nothing of the dish is removed. */
  lemma CustomerNotBefore()
    ensures RemoveAll(Dish + ToCustomer + ByPix, Named("João Félix"))
            == Dish + RemoveFrom(Dish + ToCustomer + ByPix, Named("João Félix"), 9)
  {
    var t1 := Dish + ToCustomer + ByPix;
    var pat := Named("João Félix");
    assert 'p' !in Dish && 'P' !in Dish && 'd' !in Dish && 'D' !in Dish;
    forall k | 0 <= k < 9 ensures MatchEnd(t1, pat, k).None? {
      assert t1[k] == Dish[k] && Dish[k] in Dish;
      NamedNeedsLead(t1, k, "João Félix", 0);
    }
    RemoveFromSkip(t1, pat, 0, 9);
    assert t1[0..9] == Dish;
  }

  /** Nothing of the payment words is removed. */
  lemma CustomerNotAfter()
    ensures RemoveFrom(Dish + ToCustomer + ByPix, Named("João Félix"), 24) == ByPix
  {
    var t1 := Dish + ToCustomer + ByPix;
    assert NoMatchFrom(t1, Named("João Félix"), 24);
    assert t1[24..] == ByPix;
  }

  /** "no", one space and "pix" match the first keyword pattern at 10. */
  lemma PixMatchAt()
    ensures MatchEnd(Dish + ByPix, Paid("pix"), 10) == Some(16)
  {
    var t2 := Dish + ByPix;
    PixStop();
    PixWord();
    assert PaidFrom(t2, 10, "pix", 0) == Some(16);
  }

  /** "no" starts a word at 10. */
  lemma PixStop()
    ensures Boundary(Dish + ByPix, 10) && LiteralAt(Dish + ByPix, 10, Stops[0])
  {
    var t2 := Dish + ByPix;
    assert t2[9] == ' ' && t2[10] == 'n' && t2[11] == 'o';
  }

  /** After "no", one space and then "pix", which ends the text at 16. */
  lemma PixWord()
    ensures SpacedLiteral(Dish + ByPix, 12, 13, "pix") == Some(16)
    ensures SpaceRunEnd(Dish + ByPix, 12) == 13
  {
    var t2 := Dish + ByPix;
    assert t2[12] == ' ' && t2[13] == 'p' && t2[14] == 'i' && t2[15] == 'x';
    assert SpaceRunEnd(t2, 12) == 13;
    assert LiteralAt(t2, 13, "pix");
  }

  /** No match of it starts before 10. */
  lemma PixNotBefore(k: nat)
    requires k < 10
    ensures MatchEnd(Dish + ByPix, Paid("pix"), k).None?
  {
    var t2 := Dish + ByPix;
    if k == 1 {
      PixNotAtWord();
    } else if k == 8 {
      PixNotAtSpace();
    } else {
      assert t2[0] == ' ' && t2[1] == 'c' && t2[2] == 'o' && t2[3] == 'x' && t2[4] == 'i';
      assert t2[5] == 'n' && t2[6] == 'h' && t2[7] == 'a' && t2[8] == ' ' && t2[9] == ' ';
      assert !Boundary(t2, k);
    }
  }

  /** None at 1, where the word "coxinha" starts. */
  lemma PixNotAtWord()
    ensures MatchEnd(Dish + ByPix, Paid("pix"), 1).None?
  {
    var t2 := Dish + ByPix;
    assert t2[1] == 'c' && t2[1] !in "nNeEpPvV";
    PaidNeedsStop(t2, 1, "pix", 0);
    assert SpaceRunEnd(t2, 1) == 1;
    assert !LiteralAt(t2, 1, "pix") by {
      assert LowerChar(t2[1 + 0]) != LowerChar("pix"[0]);
    }
    assert SpacedLiteral(t2, 1, 1, "pix").None?;
  }

  /** None at 8, where the spaces before "no" start. */
  lemma PixNotAtSpace()
    ensures MatchEnd(Dish + ByPix, Paid("pix"), 8).None?
  {
    var t2 := Dish + ByPix;
    assert t2[8] == ' ' && t2[8] !in "nNeEpPvV";
    PaidNeedsStop(t2, 8, "pix", 0);
    NoPixAfterDish();
    assert SpacedLiteral(t2, 8, 10, "pix").None?;
  }

  /** The space run after the dish ends at 10, and "pix" starts at none of
      8, 9 and 10. */
  lemma NoPixAfterDish()
    ensures SpaceRunEnd(Dish + ByPix, 8) == 10
    ensures forall p :: 8 <= p <= 10 ==> !LiteralAt(Dish + ByPix, p, "pix")
  {
    var t2 := Dish + ByPix;
    assert t2[8] == ' ' && t2[9] == ' ' && t2[10] == 'n';
    assert SpaceRunEnd(t2, 8) == 10;
    assert !LiteralAt(t2, 10, "pix") by {
      assert LowerChar(t2[10 + 0]) != LowerChar("pix"[0]);
    }
    assert !LiteralAt(t2, 9, "pix") by {
      assert LowerChar(t2[9 + 0]) != LowerChar("pix"[0]);
    }
    assert !LiteralAt(t2, 8, "pix") by {
      assert LowerChar(t2[8 + 0]) != LowerChar("pix"[0]);
    }
  }

  /** The first keyword, "pix", is removed with the "no" before it. */
  lemma PixStripped()
    ensures RemoveAll(Dish + ByPix, Paid("pix")) == Dish + " "
  {
    var t2 := Dish + ByPix;
    var pat := Paid("pix");
    forall k | 0 <= k < 10 ensures MatchEnd(t2, pat, k).None? {
      PixNotBefore(k);
    }
    RemoveFromSkip(t2, pat, 0, 10);
    PixMatchAt();
    assert RemoveFrom(t2, pat, 10) == RemoveFrom(t2, pat, 16) == "";
    assert t2[0..10] == Dish + " ";
  }

  /** One of the keyword's small letters is missing from t in both cases. */
  predicate Lacks(t: string, kw: string)
  {
    exists j :: 0 <= j < |kw| && 'a' <= kw[j] <= 'z' && kw[j] !in t && UpperChar(kw[j]) !in t
  }

  /** Keywords that each lack a letter in t leave t as it is. */
  lemma {:induction false} StripKeywordsMissing(t: string, keywords: seq<string>)
    requires forall m :: 0 <= m < |keywords| ==> Lacks(t, keywords[m])
    ensures StripKeywords(t, keywords) == t
    decreases |keywords|
  {
    if |keywords| > 0 {
      var j :| 0 <= j < |keywords[0]| && 'a' <= keywords[0][j] <= 'z' && keywords[0][j] !in t
               && UpperChar(keywords[0][j]) !in t;
      KeywordMissing(t, keywords[0], j);
      StripKeywordsMissing(t, keywords[1..]);
    }
  }

  /** The other PIX keywords each hold a "p". */
  lemma PixRest(t: string)
    requires 'p' !in t && 'P' !in t
    ensures forall m :: 1 <= m < |PixKeywords| ==> Lacks(t, PixKeywords[m])
  {
    var letters := [0, 0, 3, 0, 4];
    forall m | 1 <= m < |PixKeywords| ensures Lacks(t, PixKeywords[m]) {
      assert PixKeywords[m][letters[m]] == 'p';
    }
  }

  /** The cash keywords each hold a "d", an "e" or an "s". */
  lemma CashRest(t: string)
    requires 'd' !in t && 'D' !in t && 'e' !in t && 'E' !in t && 's' !in t && 'S' !in t
    ensures forall m :: 0 <= m < |CashKeywords| ==> Lacks(t, CashKeywords[m])
  {
    var letters := [0, 0, 3, 2, 0, 0];
    forall m | 0 <= m < |CashKeywords| ensures Lacks(t, CashKeywords[m]) {
      var j := letters[m];
      assert j < |CashKeywords[m]| && CashKeywords[m][j] in "des";
    }
  }

  /** The card keywords each hold a "d" or an "r". */
  lemma CardRest(t: string)
    requires 'd' !in t && 'D' !in t && 'r' !in t && 'R' !in t
    ensures forall m :: 0 <= m < |CardKeywords| ==> Lacks(t, CardKeywords[m])
  {
    var letters := [2, 2, 5, 5, 0, 0, 1, 1];
    forall m | 0 <= m < |CardKeywords| ensures Lacks(t, CardKeywords[m]) {
      var j := letters[m];
      assert j < |CardKeywords[m]| && CardKeywords[m][j] in "dr";
    }
  }

  /** No keyword after the first occurs in what is left, so it stays. */
  lemma OtherKeywordsKept()
    ensures StripKeywords(Dish + " ", PaymentKeywords[1..]) == Dish + " "
  {
    DishLetters();
    KeywordsKept(Dish + " ");
  }

  /** What is left holds none of the letters p, d, e, s and r. */
  lemma DishLetters()
    ensures var t := Dish + " ";
            && 'p' !in t && 'P' !in t && 'd' !in t && 'D' !in t
            && 'e' !in t && 'E' !in t && 's' !in t && 'S' !in t && 'r' !in t && 'R' !in t
  {
    assert Dish + " " == [' ', 'c', 'o', 'x', 'i', 'n', 'h', 'a', ' ', ' '];
  }

  /** A text without the letters p, d, e, s and r keeps every keyword after
      the first. */
  lemma KeywordsKept(t: string)
    requires 'p' !in t && 'P' !in t && 'd' !in t && 'D' !in t
    requires 'e' !in t && 'E' !in t && 's' !in t && 'S' !in t && 'r' !in t && 'R' !in t
    ensures StripKeywords(t, PaymentKeywords[1..]) == t
  {
    var ks := PaymentKeywords[1..];
    PixRest(t);
    CashRest(t);
    CardRest(t);
    forall m | 0 <= m < |ks| ensures Lacks(t, ks[m]) {
      if m < 4 {
        assert ks[m] == PixKeywords[m + 1];
      } else if m < 10 {
        assert ks[m] == CashKeywords[m - 4];
      } else {
        assert ks[m] == CardKeywords[m - 10];
      }
    }
    StripKeywordsMissing(t, ks);
  }

  /** Trimmed, what is left is "coxinha". */
  lemma TrimDish()
    ensures Trim(Dish + " ") == "coxinha"
  {
    var s := Dish + " ";
    assert s[0] == ' ' && s[1] == 'c' && s[8] == ' ' && s[9] == ' ' && s[7] == 'a';
    assert SpaceRunEnd(s, 1) == 1;
    assert LeadingSpaces(s) == 1;
    var r := s[1..];
    assert r[..|r| - 1][..|r| - 2] == r[..|r| - 2];
    assert TrailingSpaces(r[..|r| - 2]) == 0;
    assert TrailingSpaces(r) == 2;
    assert s[1..8] == "coxinha";
  }

  /** A text that trims to one word cleans up to that word capitalised. */
  lemma OneWordCleanUp(t: string, w: string)
    requires Trim(t) == w && w != "" && ' ' !in w
    ensures CleanUp(t) == Capitalize(w)
  {
    assert Split(w, ' ') == [w];
    FilterSingle(w, NonEmpty);
    var caps := seq(1, k requires 0 <= k < 1 => Capitalize([w][k]));
    assert caps == [Capitalize(w)];
  }

  /** Capitalised, "coxinha" is "Coxinha". */
  lemma CapitalizeDish()
    ensures Capitalize("coxinha") == "Coxinha"
  {
    assert "coxinha"[0] == 'c';
    assert UpperChar('c') == 'C';
  }

  /** What is left cleans up to "Coxinha". */
  lemma CleanDish()
    ensures CleanUp(Dish + " ") == "Coxinha"
  {
    TrimDish();
    assert ' ' !in "coxinha";
    OneWordCleanUp(Dish + " ", "coxinha");
    CapitalizeDish();
  }

  /** The product is "Coxinha": the article, the customer and the payment
      phrase are removed and the rest is capitalised. */
  lemma SampleProduct()
    ensures ExtractProductName(Sample, 1, "João Félix", Some(Pix)) == "Coxinha"
  {
    SampleLower();
    ArticleStripped();
    CustomerStripped();
    PixStripped();
    assert PaymentKeywords[0] == "pix";
    OtherKeywordsKept();
    assert Stripped(Sample, 1, "João Félix", Some(Pix)) == Dish + " ";
    CleanDish();
  }

  /** The catalogue the application is seeded with, prices in cents. */
  const SeedProducts: seq<Product> := [
    Product("1", "Coxinha", 500, 50, "Salgados", Some("7891234567890")),
    Product("2", "Refrigerante 2L", 850, 30, "Bebidas", Some("7891234567891")),
    Product("3", "Combo Lanche", 2500, 20, "Combos", Some("7891234567892")),
    Product("4", "Pastel", 600, 40, "Salgados", Some("7891234567893")),
    Product("5", "Suco Natural", 700, 25, "Bebidas", Some("7891234567894"))]

  /** A name whose trimmed lower-case form is the first product's name,
      lower-cased, picks the first product. */
  lemma FirstExactMatch(name: string, products: seq<Product>)
    requires name != "" && |products| > 0 && Lower(products[0].name) == Trim(Lower(name))
    ensures FindBestMatchProduct(name, products) == Some(products[0])
  {
    assert FirstPassing(products, Exact(Trim(Lower(name))), 0);
    MatchTiers(name, products);
  }

  /** Lower-cased and trimmed, "Coxinha" is "coxinha". */
  lemma SearchCoxinha()
    ensures Trim(Lower("Coxinha")) == "coxinha"
  {
    assert Lower("Coxinha") == "coxinha" by {
      assert Lower("Coxinha")[0] == 'c';
    }
    assert Trim("coxinha") == "coxinha" by {
      assert !IsSpace("coxinha"[0]) && !IsSpace("coxinha"[6]);
    }
  }

  /** Searched as "coxinha", the guess is the first seed product's name
      exactly. */
  lemma SeedMatch()
    ensures FindBestMatchProduct("Coxinha", SeedProducts) == Some(SeedProducts[0])
  {
    SearchCoxinha();
    assert SeedProducts[0].name == "Coxinha";
    FirstExactMatch("Coxinha", SeedProducts);
  }

  /** Over the seed catalogue the phrase parses to one Coxinha for João
      Félix paid by PIX, with high confidence. */
  lemma SampleParse()
    ensures ParseVoiceSale(Sample, SeedProducts)
            == ParsedVoiceSale("Coxinha", 1, "João Félix", Some(Pix), High, Sample)
  {
    SampleQuantity();
    SampleCustomer();
    SamplePayment();
    SampleProduct();
    SeedMatch();
  }
}
