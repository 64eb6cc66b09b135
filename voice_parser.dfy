/** The voice sale parser (src/lib/voiceSaleParser.ts): a transcript and the
    product catalogue in, a sale draft out. Every stage is a pure function of
    the transcript; the regular expressions are the scanners of
    VoicePatterns. */
module VoiceParser {
  import opened Wrappers
  import opened Text
  import opened Folds
  import opened SalesTypes
  import opened VoicePatterns

  /** The payment methods the parser recognises. */
  datatype PaymentGuess = Pix | Dinheiro | Cartao

  /** The parser's own spelling of each method: "PIX", not the "Pix" of the
      sales records. */
  function PaymentLabel(m: PaymentGuess): string
  {
    match m
    case Pix => "PIX"
    case Dinheiro => "Dinheiro"
    case Cartao => "Cartão"
  }

  datatype Confidence = High | Medium | Low

  /** The draft `parseVoiceSale` returns. */
  datatype ParsedVoiceSale = ParsedVoiceSale(
    productName: string,
    quantity: int,
    customerName: string,
    paymentMethod: Option<PaymentGuess>,
    confidence: Confidence,
    rawTranscript: string)

  // ==================== payment method ====================

  const PixKeywords: seq<string> := ["pix", "pix", "no pix", "pelo pix", "via pix"]
  const CashKeywords: seq<string> := ["dinheiro", "em dinheiro", "no dinheiro", "cash", "espécie", "em espécie"]
  const CardKeywords: seq<string> :=
    ["cartão", "cartao", "no cartão", "no cartao", "débito", "debito", "crédito", "credito"]

  /** `keywords.some(keyword => text.includes(keyword))`. */
  predicate AnyKeyword(text: string, keywords: seq<string>)
  {
    exists k | 0 <= k < |keywords| :: Contains(text, keywords[k])
  }

  /** `extractPaymentMethod`: the first keyword set, in the order PIX, cash,
      card, with a keyword in the lower-cased text. Each set is found
      exactly when one of its shortest keywords is, since every longer
      keyword ("no pix", "em espécie", "no cartão", ...) holds one of them.
      So the method is PIX when "pix" occurs, cash when one of "dinheiro",
      "cash", "espécie" does and "pix" does not, and so on. */
  function ExtractPaymentMethod(text: string): (r: Option<PaymentGuess>)
    ensures var lower := Lower(text);
            r == if Contains(lower, "pix") then Some(Pix)
                 else if Contains(lower, "dinheiro") || Contains(lower, "cash") || Contains(lower, "espécie")
                 then Some(Dinheiro)
                 else if Contains(lower, "cartão") || Contains(lower, "cartao") || Contains(lower, "débito")
                         || Contains(lower, "debito") || Contains(lower, "crédito") || Contains(lower, "credito")
                 then Some(Cartao)
                 else None
  {
    var lower := Lower(text);
    PixRoot(lower);
    CashRoot(lower);
    CardRoot(lower);
    if AnyKeyword(lower, PixKeywords) then Some(Pix)
    else if AnyKeyword(lower, CashKeywords) then Some(Dinheiro)
    else if AnyKeyword(lower, CardKeywords) then Some(Cartao)
    else None
  }

  lemma PixRoot(lower: string)
    ensures AnyKeyword(lower, PixKeywords) <==> Contains(lower, "pix")
  {
    if AnyKeyword(lower, PixKeywords) {
      var k :| 0 <= k < |PixKeywords| && Contains(lower, PixKeywords[k]);
      var big := PixKeywords[k];
      assert OccursAt(big, |big| - 3, "pix");
      ContainsInner(lower, big, |big| - 3, "pix");
    }
    if Contains(lower, "pix") {
      assert Contains(lower, PixKeywords[0]);
    }
  }

  lemma CashRoot(lower: string)
    ensures AnyKeyword(lower, CashKeywords)
            <==> Contains(lower, "dinheiro") || Contains(lower, "cash") || Contains(lower, "espécie")
  {
    if AnyKeyword(lower, CashKeywords) {
      var k :| 0 <= k < |CashKeywords| && Contains(lower, CashKeywords[k]);
      var big := CashKeywords[k];
      if k == 1 {
        assert big == "em dinheiro";
        assert big[3] == 'd' && big[4] == 'i' && big[5] == 'n' && big[6] == 'h'
               && big[7] == 'e' && big[8] == 'i' && big[9] == 'r' && big[10] == 'o';
        assert big[3..11] == "dinheiro";
        ContainsInner(lower, big, 3, "dinheiro");
      } else if k == 2 {
        assert big == "no dinheiro";
        assert big[3] == 'd' && big[4] == 'i' && big[5] == 'n' && big[6] == 'h'
               && big[7] == 'e' && big[8] == 'i' && big[9] == 'r' && big[10] == 'o';
        assert big[3..11] == "dinheiro";
        ContainsInner(lower, big, 3, "dinheiro");
      } else if k == 5 {
        assert big == "em espécie";
        assert big[3] == 'e' && big[4] == 's' && big[5] == 'p' && big[6] == 'é'
               && big[7] == 'c' && big[8] == 'i' && big[9] == 'e';
        assert big[3..10] == "espécie";
        ContainsInner(lower, big, 3, "espécie");
      }
    }
    if Contains(lower, "dinheiro") {
      assert Contains(lower, CashKeywords[0]);
    }
    if Contains(lower, "cash") {
      assert Contains(lower, CashKeywords[3]);
    }
    if Contains(lower, "espécie") {
      assert Contains(lower, CashKeywords[4]);
    }
  }

  lemma CardRoot(lower: string)
    ensures AnyKeyword(lower, CardKeywords)
            <==> Contains(lower, "cartão") || Contains(lower, "cartao") || Contains(lower, "débito")
                 || Contains(lower, "debito") || Contains(lower, "crédito") || Contains(lower, "credito")
  {
    if AnyKeyword(lower, CardKeywords) {
      var k :| 0 <= k < |CardKeywords| && Contains(lower, CardKeywords[k]);
      var big := CardKeywords[k];
      if k == 2 {
        assert OccursAt(big, 3, "cartão");
        ContainsInner(lower, big, 3, "cartão");
      } else if k == 3 {
        assert OccursAt(big, 3, "cartao");
        ContainsInner(lower, big, 3, "cartao");
      }
    }
    if Contains(lower, "cartão") {
      assert Contains(lower, CardKeywords[0]);
    }
    if Contains(lower, "cartao") {
      assert Contains(lower, CardKeywords[1]);
    }
    if Contains(lower, "débito") {
      assert Contains(lower, CardKeywords[4]);
    }
    if Contains(lower, "debito") {
      assert Contains(lower, CardKeywords[5]);
    }
    if Contains(lower, "crédito") {
      assert Contains(lower, CardKeywords[6]);
    }
    if Contains(lower, "credito") {
      assert Contains(lower, CardKeywords[7]);
    }
  }

  /** The detection ignores case: a transcript and its lower-cased form get
      the same method. */
  lemma PaymentIgnoresCase(text: string)
    ensures ExtractPaymentMethod(Lower(text)) == ExtractPaymentMethod(text)
  {
    LowerIdempotent(text);
  }

  // ==================== quantity ====================

  /** The spelled-out numbers, in the order `Object.entries` lists them. */
  const QuantityWords: seq<(string, nat)> :=
    [("uma", 1), ("um", 1), ("duas", 2), ("dois", 2), ("três", 3), ("tres", 3), ("quatro", 4),
     ("cinco", 5), ("seis", 6), ("sete", 7), ("oito", 8), ("nove", 9), ("dez", 10)]

  /** Whether a vocabulary entry occurs in the lower-cased text. */
  function WordIn(lower: string): ((string, nat)) -> bool
  {
    (e: (string, nat)) => Contains(lower, e.0)
  }

  /** The digits of a whole-word number. */
  lemma NumberDigits(s: string, i: int, j: int)
    requires NumberAt(s, i, j)
    ensures AllDigits(s[i..j])
  {
    forall t | 0 <= t < j - i ensures IsDigit(s[i..j][t]) {
      assert s[i..j][t] == s[i + t];
    }
  }

  /** Every vocabulary value lies in 1..10. */
  lemma VocabularyRange()
    ensures forall k :: 0 <= k < |QuantityWords| ==> 1 <= QuantityWords[k].1 <= 10
  {
  }

  /** `extractQuantity`: the value of the first vocabulary word found as a
      piece of the lower-cased text; else the first number standing as a
      whole word; else 1. Whenever a vocabulary word occurs the quantity
      lies in 1..10. */
  function ExtractQuantity(text: string): (n: nat)
    ensures !NoQuantityWord(Lower(text)) ==> 1 <= n <= 10
  {
    WordFound(Lower(text));
    match FindIndex(QuantityWords, WordIn(Lower(text)))
    case Some(k) => QuantityWords[k].1
    case None =>
      match FindNumber(text, 0)
      case Some(m) =>
        NumberDigits(text, m.0, m.1);
        DigitsValue(text[m.0..m.1])
      case None => 1
  }

  /** The vocabulary lookup finds an entry, worth 1..10, whenever some
      vocabulary word occurs. */
  lemma WordFound(lower: string)
    ensures var r := FindIndex(QuantityWords, WordIn(lower));
            && (r.Some? ==> 1 <= QuantityWords[r.value].1 <= 10)
            && (!NoQuantityWord(lower) ==> r.Some?)
  {
    VocabularyRange();
    var r := FindIndex(QuantityWords, WordIn(lower));
    if r.None? {
      assert forall k :: 0 <= k < |QuantityWords| ==> !WordIn(lower)(QuantityWords[k]);
    }
  }

  /** No vocabulary word occurs in the lower-cased text. */
  predicate NoQuantityWord(lower: string)
  {
    forall k :: 0 <= k < |QuantityWords| ==> !Contains(lower, QuantityWords[k].0)
  }

  /** The first vocabulary word that occurs gives the quantity. */
  lemma QuantityFromWord(text: string, k: nat)
    requires k < |QuantityWords| && Contains(Lower(text), QuantityWords[k].0)
    requires forall j :: 0 <= j < k ==> !Contains(Lower(text), QuantityWords[j].0)
    ensures ExtractQuantity(text) == QuantityWords[k].1
    ensures 1 <= ExtractQuantity(text) <= 10
  {
    var lower := Lower(text);
    var r := FindIndex(QuantityWords, WordIn(lower));
    VocabularyRange();
    assert WordIn(lower)(QuantityWords[k]);
    assert r.Some?;
    assert forall j :: 0 <= j < k ==> !WordIn(lower)(QuantityWords[j]);
    assert r.value == k;
  }

  /** With no vocabulary word, the leftmost whole-word number gives the
      quantity, as its decimal value. */
  lemma QuantityFromNumber(text: string, i: int, j: int)
    requires NoQuantityWord(Lower(text))
    requires NumberAt(text, i, j) && forall i2, j2 :: 0 <= i2 < i ==> !NumberAt(text, i2, j2)
    ensures AllDigits(text[i..j]) && ExtractQuantity(text) == DigitsValue(text[i..j])
  {
    var lower := Lower(text);
    var r := FindIndex(QuantityWords, WordIn(lower));
    assert forall j :: 0 <= j < |QuantityWords| ==> !WordIn(lower)(QuantityWords[j]);
    assert r.None?;
    FindNumberSpec(text, 0);
    NumberDigits(text, i, j);
    var m := FindNumber(text, 0);
    assert m.Some?;
    assert m.value.0 == i;
    NumberEndsRun(text, i, j);
    NumberEndsRun(text, i, m.value.1);
  }

  /** With neither a vocabulary word nor a whole-word number, the quantity
      is 1. */
  lemma QuantityDefault(text: string)
    requires NoQuantityWord(Lower(text))
    requires forall i, j :: !NumberAt(text, i, j)
    ensures ExtractQuantity(text) == 1
  {
    var lower := Lower(text);
    var r := FindIndex(QuantityWords, WordIn(lower));
    assert forall j :: 0 <= j < |QuantityWords| ==> !WordIn(lower)(QuantityWords[j]);
    assert r.None?;
    FindNumberSpec(text, 0);
  }

  /** "um" is the second vocabulary word and "uma" the first, both worth 1:
      any transcript holding "um" anywhere, even inside another word, gets
      quantity 1, whatever other number words it holds. */
  lemma UmWins(text: string)
    requires Contains(Lower(text), "um")
    ensures ExtractQuantity(text) == 1
  {
    var lower := Lower(text);
    assert WordIn(lower)(QuantityWords[1]);
    var r := FindIndex(QuantityWords, WordIn(lower));
    assert r.Some? && r.value <= 1;
  }

  // ==================== customer name ====================

  /** The match of the first of the patterns `para`, `pro`, `do`, `da`, from
      the i-th on, that matches at all: where its group starts and ends. */
  function FirstNameMatch(text: string, i: nat): (r: Option<(nat, nat)>)
    requires i <= |NameLeads|
    ensures r.Some? ==> r.value.0 < r.value.1 <= |text|
    decreases |NameLeads| - i
  {
    if i == |NameLeads| then None
    else match FindName(text, NameLeads[i], NameEnds(text), 0)
      case Some(m) => Some((m.1, m.2))
      case None => FirstNameMatch(text, i + 1)
  }

  /** `word.charAt(0).toUpperCase() + word.slice(1).toLowerCase()`. */
  function TitleWord(w: string): (r: string)
  {
    if w == "" then "" else [UpperChar(w[0])] + Lower(w[1..])
  }

  /** A word with a capital (or uncased) first character and the rest in
      small letters. */
  predicate TitleCased(w: string)
  {
    w == "" || (UpperChar(w[0]) == w[0] && forall i :: 1 <= i < |w| ==> LowerChar(w[i]) == w[i])
  }

  /** `s.trim().split(' ').map(TitleWord).join(' ')`. */
  function TitleCase(s: string): (r: string)
  {
    var words := Split(Trim(s), ' ');
    Join(seq(|words|, k requires 0 <= k < |words| => TitleWord(words[k])), ' ')
  }

  /** The title-cased word has no space the word did not have, and is
      title-cased. */
  lemma TitleWordSpec(w: string)
    ensures |TitleWord(w)| == |w|
    ensures ' ' in TitleWord(w) ==> ' ' in w
    ensures TitleCased(TitleWord(w))
  {
    if w != "" {
      var r := TitleWord(w);
      TitleWordAt(w);
      UpperCharIdempotent(w[0]);
      CaseMapsKeepSpaces(w[0]);
      forall i | 1 <= i < |r| ensures LowerChar(r[i]) == r[i] && (r[i] == ' ' ==> w[i] == ' ') {
        LowerCharIdempotent(w[i]);
        CaseMapsKeepSpaces(w[i]);
      }
      NoNewSpace(w, r);
    }
  }

  lemma TitleWordAt(w: string)
    requires w != ""
    ensures |TitleWord(w)| == |w| && TitleWord(w)[0] == UpperChar(w[0])
    ensures forall i :: 1 <= i < |w| ==> TitleWord(w)[i] == LowerChar(w[i])
  {
    var rest := Lower(w[1..]);
    assert TitleWord(w) == [UpperChar(w[0])] + rest;
    forall i | 1 <= i < |w| ensures TitleWord(w)[i] == LowerChar(w[i]) {
      assert TitleWord(w)[i] == rest[i - 1];
      assert w[1..][i - 1] == w[i];
    }
  }

  lemma NoNewSpace(w: string, r: string)
    requires |r| == |w| && forall i :: 0 <= i < |r| && r[i] == ' ' ==> w[i] == ' '
    ensures ' ' in r ==> ' ' in w
  {
    if ' ' in r {
      var i :| 0 <= i < |r| && r[i] == ' ';
      assert w[i] == ' ';
    }
  }

  /** Splitting the title-cased text at spaces gives back the words of the
      trimmed input, one for one, each title-cased. */
  lemma TitleCaseWords(s: string)
    ensures |Split(TitleCase(s), ' ')| == |Split(Trim(s), ' ')|
    ensures forall k :: 0 <= k < |Split(TitleCase(s), ' ')| ==>
              Split(TitleCase(s), ' ')[k] == TitleWord(Split(Trim(s), ' ')[k])
              && TitleCased(Split(TitleCase(s), ' ')[k])
  {
    var words := Split(Trim(s), ' ');
    var titled := seq(|words|, k requires 0 <= k < |words| => TitleWord(words[k]));
    SplitPieces(Trim(s), ' ');
    forall k | 0 <= k < |titled| ensures ' ' !in titled[k] && TitleCased(titled[k]) {
      TitleWordSpec(words[k]);
    }
    SplitJoin(titled, ' ');
  }

  /** `extractCustomerName`: the title-cased group of the first pattern
      that matches, or "" when none does. Every space-separated word of the
      name is title-cased. */
  function ExtractCustomerName(text: string): (r: string)
    ensures forall w :: w in Split(r, ' ') ==> TitleCased(w)
  {
    match FirstNameMatch(text, 0)
    case Some(m) =>
      TitleCaseWords(text[m.0..m.1]);
      TitleCase(text[m.0..m.1])
    case None => ""
  }

  /** The l-th customer pattern matches nowhere in the text. */
  ghost predicate NoNameMatch(text: string, l: nat)
    requires l < |NameLeads|
  {
    forall k, e, g :: !NameMatch(text, NameLeads[l], NameEnds(text), k, e, g)
  }

  /** (k, e, g) is the match of the l-th customer pattern a backtracking
      matcher picks: the leftmost start, then the longest run of spaces,
      then the shortest group. */
  ghost predicate PickedMatch(text: string, l: nat, k: int, e: int, g: int)
    requires l < |NameLeads|
  {
    && NameMatch(text, NameLeads[l], NameEnds(text), k, e, g)
    && (forall k2, e2, g2 :: k2 < k ==> !NameMatch(text, NameLeads[l], NameEnds(text), k2, e2, g2))
    && (forall e2, g2 :: e < e2 ==> !NameMatch(text, NameLeads[l], NameEnds(text), k, e2, g2))
    && (forall g2 :: g2 < g ==> !NameMatch(text, NameLeads[l], NameEnds(text), k, e, g2))
  }

  /** A pattern picks at most one match. */
  lemma PickedUnique(text: string, l: nat, k1: int, e1: int, g1: int, k2: int, e2: int, g2: int)
    requires l < |NameLeads|
    requires PickedMatch(text, l, k1, e1, g1) && PickedMatch(text, l, k2, e2, g2)
    ensures k1 == k2 && e1 == e2 && g1 == g2
  {
    var kw, ends := NameLeads[l], NameEnds(text);
    assert NameMatch(text, kw, ends, k1, e1, g1) && NameMatch(text, kw, ends, k2, e2, g2);
    assert k1 == k2;
    assert e1 == e2;
  }

  /** FindName from the start finds the picked match of its pattern, or
      reports that the pattern matches nowhere. */
  lemma FindNamePicks(text: string, l: nat)
    requires l < |NameLeads|
    ensures var r := FindName(text, NameLeads[l], NameEnds(text), 0);
            && (r.Some? ==> PickedMatch(text, l, r.value.0, r.value.1, r.value.2))
            && (r.None? ==> NoNameMatch(text, l))
  {
    FindNameSpec(text, NameLeads[l], NameEnds(text), 0);
  }

  /** The first pattern, from the i-th on, with a match decides the
      name. */
  lemma {:induction false} FirstNameMatchSpec(text: string, i: nat)
    requires i <= |NameLeads|
    ensures var r := FirstNameMatch(text, i);
            && (r.None? ==> forall l :: i <= l < |NameLeads| ==> NoNameMatch(text, l))
            && (r.Some? ==> exists l, k :: i <= l < |NameLeads| && PickedMatch(text, l, k, r.value.0, r.value.1)
                                           && forall l2 :: i <= l2 < l ==> NoNameMatch(text, l2))
    decreases |NameLeads| - i
  {
    if i < |NameLeads| {
      FindNamePicks(text, i);
      FirstNameMatchSpec(text, i + 1);
      var found := FindName(text, NameLeads[i], NameEnds(text), 0);
      var r := FirstNameMatch(text, i);
      if found.Some? {
        assert PickedMatch(text, i, found.value.0, r.value.0, r.value.1);
      } else if r.Some? {
        var l, k :| i + 1 <= l < |NameLeads| && PickedMatch(text, l, k, r.value.0, r.value.1)
                    && forall l2 :: i + 1 <= l2 < l ==> NoNameMatch(text, l2);
        assert forall l2 :: i <= l2 < l ==> NoNameMatch(text, l2);
      }
    }
  }

  /** With no pattern matching, no customer is named. */
  lemma CustomerNone(text: string)
    requires forall l :: 0 <= l < |NameLeads| ==> NoNameMatch(text, l)
    ensures ExtractCustomerName(text) == ""
  {
    FirstNameMatchSpec(text, 0);
    forall l: nat, k, e, g | l < |NameLeads| && PickedMatch(text, l, k, e, g) ensures !NoNameMatch(text, l) {
    }
  }

  /** Otherwise the name is the title-cased group of the picked match of
      the first pattern that matches. */
  lemma CustomerFromMatch(text: string, l: nat, k: int, e: int, g: int)
    requires l < |NameLeads| && PickedMatch(text, l, k, e, g)
    requires forall l2 :: 0 <= l2 < l ==> NoNameMatch(text, l2)
    ensures 0 <= e <= g <= |text| && ExtractCustomerName(text) == TitleCase(text[e..g])
  {
    FirstNameMatchSpec(text, 0);
    var r := FirstNameMatch(text, 0);
    assert !NoNameMatch(text, l);
    assert r.Some?;
    var l1, k1 :| 0 <= l1 < |NameLeads| && PickedMatch(text, l1, k1, r.value.0, r.value.1)
                  && forall l2 :: 0 <= l2 < l1 ==> NoNameMatch(text, l2);
    assert !NoNameMatch(text, l1);
    assert l1 == l;
    PickedUnique(text, l, k, e, g, k1, r.value.0, r.value.1);
  }

  // ==================== product name ====================

  /** The first vocabulary word worth v, as
      `Object.entries(quantityKeywords).find(([_, val]) => val === v)`. */
  function QuantityWordFor(v: int): (r: Option<string>)
    ensures r.Some? ==> exists k :: 0 <= k < |QuantityWords| && QuantityWords[k] == (r.value, v)
                                    && forall j :: 0 <= j < k ==> QuantityWords[j].1 != v
    ensures r.None? ==> forall k :: 0 <= k < |QuantityWords| ==> QuantityWords[k].1 != v
  {
    match FindIndex(QuantityWords, (e: (string, nat)) => e.1 == v)
    case Some(k) => Some(QuantityWords[k].0)
    case None => None
  }

  /** Only the first word of each value is ever stripped: "duas", never
      "dois"; "três", never "tres". */
  lemma QuantityWordsStripped()
    ensures QuantityWordFor(1) == Some("uma")
    ensures QuantityWordFor(2) == Some("duas")
    ensures QuantityWordFor(3) == Some("três")
  {
    assert QuantityWords[0] == ("uma", 1);
    assert QuantityWords[2] == ("duas", 2);
    assert QuantityWords[4] == ("três", 3);
  }

  /** The first step of `extractProductName`: with a quantity above 1, the
      first vocabulary word for it and then its digits are removed as whole
      words; otherwise "uma" and "um" are. */
  function StripQuantity(t: string, quantity: int): string
  {
    if quantity > 1 then
      var t1 := match QuantityWordFor(quantity)
                case Some(w) => RemoveAll(t, Whole(w))
                case None => t;
      RemoveAll(t1, Whole(NatToString(quantity)))
    else RemoveAll(t, Article)
  }

  /** The second step: a named customer's phrase is removed. */
  function StripCustomer(t: string, customerName: string): string
  {
    if customerName != "" then RemoveAll(t, Named(customerName)) else t
  }

  /** Every payment keyword, in the order the source spreads the three sets. */
  const PaymentKeywords: seq<string> := PixKeywords + CashKeywords + CardKeywords

  /** `keywords.forEach(k => t = t.replace(pattern(k), ''))`. */
  function StripKeywords(t: string, keywords: seq<string>): string
    decreases |keywords|
  {
    if |keywords| == 0 then t else StripKeywords(RemoveAll(t, Paid(keywords[0])), keywords[1..])
  }

  /** The third step: with a payment method found, every keyword is removed
      together with a leading "no", "em", "pelo" or "via". */
  function StripPayment(t: string, paymentMethod: Option<PaymentGuess>): string
  {
    if paymentMethod.Some? then StripKeywords(t, PaymentKeywords) else t
  }

  /** The lower-cased transcript with the three removals made. */
  function Stripped(text: string, quantity: int, customerName: string, paymentMethod: Option<PaymentGuess>): string
  {
    StripPayment(StripCustomer(StripQuantity(Lower(text), quantity), customerName), paymentMethod)
  }

  /** `word.charAt(0).toUpperCase() + word.slice(1)`. */
  function Capitalize(w: string): string
  {
    if w == "" then "" else [UpperChar(w[0])] + w[1..]
  }

  function NonEmpty(w: string): bool { |w| > 0 }

  /** `t.trim().split(' ').filter(w => w.length > 0).map(Capitalize).join(' ')`. */
  function CleanUp(t: string): string
  {
    var words := Filter(Split(Trim(t), ' '), NonEmpty);
    Join(seq(|words|, k requires 0 <= k < |words| => Capitalize(words[k])), ' ')
  }

  /** `extractProductName`: what is left of the transcript once the
      quantity, the customer and the payment method are removed, cleaned
      up: empty, or words separated by single spaces with none at either
      end, each starting with a capital (or uncased) character. */
  function ExtractProductName(text: string, quantity: int, customerName: string,
                              paymentMethod: Option<PaymentGuess>): (r: string)
    ensures r == "" || (r[0] != ' ' && r[|r| - 1] != ' '
                        && (forall i :: 0 <= i < |r| - 1 ==> !(r[i] == ' ' && r[i + 1] == ' '))
                        && CleanWords(Split(r, ' ')))
  {
    CleanUpShape(Stripped(text, quantity, customerName, paymentMethod));
    CleanUp(Stripped(text, quantity, customerName, paymentMethod))
  }

  /** Words that are not empty, hold no space and start with a capital (or
      uncased) character. */
  predicate CleanWords(ws: seq<string>)
  {
    forall k :: 0 <= k < |ws| ==> ws[k] != "" && ' ' !in ws[k] && UpperChar(ws[k][0]) == ws[k][0]
  }

  /** Joined clean words neither start nor end with a space and hold no two
      spaces in a row. */
  lemma {:induction false} JoinCleanWords(ws: seq<string>)
    requires |ws| > 0 && CleanWords(ws)
    ensures var r := Join(ws, ' ');
            |r| > 0 && r[0] == ws[0][0] && r[|r| - 1] == ws[|ws| - 1][|ws[|ws| - 1]| - 1]
            && forall i :: 0 <= i < |r| - 1 ==> !(r[i] == ' ' && r[i + 1] == ' ')
  {
    if |ws| > 1 {
      JoinCleanWords(ws[1..]);
      var rest := Join(ws[1..], ' ');
      var r := ws[0] + [' '] + rest;
      assert Join(ws, ' ') == r;
      forall i | 0 <= i < |r| - 1 ensures !(r[i] == ' ' && r[i + 1] == ' ') {
        if i < |ws[0]| {
          assert r[i] == ws[0][i];
          assert ws[0][i] in ws[0];
        } else if i == |ws[0]| {
          assert r[i + 1] == rest[0];
        } else {
          assert r[i] == rest[i - |ws[0]| - 1] && r[i + 1] == rest[i - |ws[0]|];
        }
      }
    }
  }

  /** The capitalised non-empty words of the clean-up are clean. */
  lemma CapitalizedClean(words: seq<string>)
    requires forall k :: 0 <= k < |words| ==> words[k] != "" && ' ' !in words[k]
    ensures CleanWords(seq(|words|, k requires 0 <= k < |words| => Capitalize(words[k])))
  {
    var caps := seq(|words|, k requires 0 <= k < |words| => Capitalize(words[k]));
    forall k | 0 <= k < |caps| ensures caps[k] != "" && ' ' !in caps[k] && UpperChar(caps[k][0]) == caps[k][0] {
      var w := words[k];
      UpperCharIdempotent(w[0]);
      CaseMapsKeepSpaces(w[0]);
      assert caps[k] == [UpperChar(w[0])] + w[1..];
      assert forall i :: 1 <= i < |w| ==> w[i] in w;
    }
  }

  /** A cleaned-up text is empty or a run of words separated by single
      spaces, with no space at either end, each word starting with a
      capital (or uncased) character; splitting it at spaces gives those
      words back. */
  lemma CleanUpShape(t: string)
    ensures var r := CleanUp(t);
            r == "" || (r[0] != ' ' && r[|r| - 1] != ' '
                        && (forall i :: 0 <= i < |r| - 1 ==> !(r[i] == ' ' && r[i + 1] == ' '))
                        && CleanWords(Split(r, ' ')))
  {
    var split := Split(Trim(t), ' ');
    var words := Filter(split, NonEmpty);
    SplitPieces(Trim(t), ' ');
    forall k | 0 <= k < |words| ensures words[k] != "" && ' ' !in words[k] {
      assert words[k] in split;
    }
    var caps := seq(|words|, k requires 0 <= k < |words| => Capitalize(words[k]));
    CapitalizedClean(words);
    if |caps| > 0 {
      JoinCleanWords(caps);
      SplitJoin(caps, ' ');
      assert caps[0][0] in caps[0];
      assert caps[|caps| - 1][|caps[|caps| - 1]| - 1] in caps[|caps| - 1];
    }
  }

  /** IsSubsequence is transitive. */
  lemma {:induction false} SubsequenceTrans(a: string, b: string, c: string)
    requires IsSubsequence(a, b) && IsSubsequence(b, c)
    ensures IsSubsequence(a, c)
    decreases |c|
  {
    if a != [] && b != [] && c != [] {
      if b[0] == c[0] {
        if a[0] == b[0] {
          SubsequenceTrans(a[1..], b[1..], c[1..]);
        } else {
          SubsequenceTrans(a, b[1..], c[1..]);
        }
      } else {
        SubsequenceTrans(a, b, c[1..]);
        if a[0] == c[0] {
          SubsequenceWeaken(a, c[1..]);
        }
      }
    }
  }

  /** A string is a subsequence of itself. */
  lemma {:induction false} SubsequenceRefl(a: string)
    ensures IsSubsequence(a, a)
    decreases |a|
  {
    if a != [] {
      SubsequenceRefl(a[1..]);
    }
  }

  lemma RemoveAllSubsequence(t: string, pat: Pattern)
    ensures IsSubsequence(RemoveAll(t, pat), t)
  {
    RemoveFromSubsequence(t, pat, 0);
    assert t[0..] == t;
  }

  lemma {:induction false} StripKeywordsSubsequence(t: string, keywords: seq<string>)
    ensures IsSubsequence(StripKeywords(t, keywords), t)
    decreases |keywords|
  {
    if |keywords| == 0 {
      SubsequenceRefl(t);
    } else {
      var t1 := RemoveAll(t, Paid(keywords[0]));
      StripKeywordsSubsequence(t1, keywords[1..]);
      RemoveAllSubsequence(t, Paid(keywords[0]));
      SubsequenceTrans(StripKeywords(t1, keywords[1..]), t1, t);
    }
  }

  /** The removals only delete: what is left is the lower-cased transcript
      with some characters taken out, the rest in their order. */
  lemma StrippedIsSubsequence(text: string, quantity: int, customerName: string,
                              paymentMethod: Option<PaymentGuess>)
    ensures IsSubsequence(Stripped(text, quantity, customerName, paymentMethod), Lower(text))
  {
    var lower := Lower(text);
    var t1 := StripQuantity(lower, quantity);
    if quantity > 1 {
      var t0 := match QuantityWordFor(quantity)
                case Some(w) => RemoveAll(lower, Whole(w))
                case None => lower;
      match QuantityWordFor(quantity) {
        case Some(w) => RemoveAllSubsequence(lower, Whole(w));
        case None => SubsequenceRefl(lower);
      }
      RemoveAllSubsequence(t0, Whole(NatToString(quantity)));
      SubsequenceTrans(t1, t0, lower);
    } else {
      RemoveAllSubsequence(lower, Article);
    }
    var t2 := StripCustomer(t1, customerName);
    if customerName != "" {
      RemoveAllSubsequence(t1, Named(customerName));
    } else {
      SubsequenceRefl(t1);
    }
    SubsequenceTrans(t2, t1, lower);
    var t3 := StripPayment(t2, paymentMethod);
    if paymentMethod.Some? {
      StripKeywordsSubsequence(t2, PaymentKeywords);
    } else {
      SubsequenceRefl(t2);
    }
    SubsequenceTrans(t3, t2, lower);
  }

  // ==================== catalogue match ====================

  /** The exact tier: the lower-cased name equals the search. */
  function Exact(search: string): Product -> bool
  {
    (p: Product) => Lower(p.name) == search
  }

  /** The containment tier: either of the lower-cased name and the search
      holds the other. */
  function Includes(search: string): Product -> bool
  {
    (p: Product) => Contains(Lower(p.name), search) || Contains(search, Lower(p.name))
  }

  /** The words of the search longer than two characters. */
  function SearchKeywords(search: string): seq<string>
  {
    Filter(Split(search, ' '), (w: string) => |w| > 2)
  }

  /** The keyword tier: one of the keywords occurs in the lower-cased
      name. */
  function SharesKeyword(keywords: seq<string>): Product -> bool
  {
    (p: Product) => exists k | 0 <= k < |keywords| :: Contains(Lower(p.name), keywords[k])
  }

  /** `findBestMatchProduct`: the first product of the first tier that any
      product passes. */
  function FindBestMatchProduct(productName: string, products: seq<Product>): (r: Option<Product>)
    ensures productName == "" || |products| == 0 ==> r.None?
    ensures r.Some? ==> r.value in products
  {
    if productName == "" || |products| == 0 then None
    else
      var search := Trim(Lower(productName));
      match FindIndex(products, Exact(search))
      case Some(i) => Some(products[i])
      case None =>
        match FindIndex(products, Includes(search))
        case Some(i) => Some(products[i])
        case None =>
          match FindIndex(products, SharesKeyword(SearchKeywords(search)))
          case Some(i) => Some(products[i])
          case None => None
  }

  /** The first position whose product passes p, when p is the first tier
      that some product passes. */
  predicate FirstPassing(products: seq<Product>, p: Product -> bool, i: int)
  {
    0 <= i < |products| && p(products[i]) && forall j :: 0 <= j < i ==> !p(products[j])
  }

  predicate NonePasses(products: seq<Product>, p: Product -> bool)
  {
    forall j :: 0 <= j < |products| ==> !p(products[j])
  }

  /** The tiers in their order: for a non-empty name, the first product with
      exactly the searched name; failing that, the first whose name and the
      search contain one another; failing that, the first holding one of the
      search's longer words; and None only when no product passes any
      tier. */
  lemma MatchTiers(productName: string, products: seq<Product>)
    requires productName != ""
    ensures var search := Trim(Lower(productName));
            var r := FindBestMatchProduct(productName, products);
            && (forall i :: FirstPassing(products, Exact(search), i) ==> r == Some(products[i]))
            && (forall i :: NonePasses(products, Exact(search)) && FirstPassing(products, Includes(search), i)
                            ==> r == Some(products[i]))
            && (forall i :: NonePasses(products, Exact(search)) && NonePasses(products, Includes(search))
                            && FirstPassing(products, SharesKeyword(SearchKeywords(search)), i)
                            ==> r == Some(products[i]))
            && (r.None? <==> (NonePasses(products, Exact(search)) && NonePasses(products, Includes(search))
                              && NonePasses(products, SharesKeyword(SearchKeywords(search)))))
  {
    var search := Trim(Lower(productName));
    FirstIsFound(products, Exact(search));
    FirstIsFound(products, Includes(search));
    FirstIsFound(products, SharesKeyword(SearchKeywords(search)));
  }

  lemma FirstIsFound(products: seq<Product>, p: Product -> bool)
    ensures forall i :: FirstPassing(products, p, i) ==> FindIndex(products, p) == Some(i)
    ensures FindIndex(products, p).None? <==> NonePasses(products, p)
  {
    forall i | FirstPassing(products, p, i) ensures FindIndex(products, p) == Some(i) {
      var r := FindIndex(products, p);
      assert r.Some?;
      assert !(r.value < i);
    }
  }

  /** A name that some product's name equals up to case is always matched
      to some product, though perhaps not that one when the name has
      spaces around it. */
  lemma CatalogueNameMatches(productName: string, products: seq<Product>, i: nat)
    requires productName != "" && i < |products| && Lower(products[i].name) == Lower(productName)
    ensures FindBestMatchProduct(productName, products).Some?
  {
    var search := Trim(Lower(productName));
    var lower := Lower(productName);
    var a, b :| 0 <= a <= b <= |lower| && search == lower[a..b];
    ContainsSlice(lower, a, b);
    assert Includes(search)(products[i]);
    MatchTiers(productName, products);
  }

  // ==================== confidence ====================

  function IsSet(b: bool): bool { b }

  /** `[productFound, hasCustomer, hasPaymentMethod].filter(Boolean).length`
      is the number of flags set. */
  lemma ScoreCounts(a: bool, b: bool, c: bool)
    ensures |Filter([a, b, c], IsSet)| == (if a then 1 else 0) + (if b then 1 else 0) + (if c then 1 else 0)
  {
    assert [a, b, c][..2] == [a, b];
    assert [a, b][..1] == [a];
    FilterSingle(a, IsSet);
    assert Filter([a, b], IsSet) == Filter([a], IsSet) + (if b then [b] else []);
    assert Filter([a, b, c], IsSet) == Filter([a, b], IsSet) + (if c then [c] else []);
  }

  /** `calculateConfidence`: high with all three flags set, medium with
      exactly two, low otherwise. */
  function CalculateConfidence(productFound: bool, hasCustomer: bool, hasPaymentMethod: bool): (c: Confidence)
    ensures c == High <==> productFound && hasCustomer && hasPaymentMethod
    ensures c == Medium <==> (productFound && hasCustomer && !hasPaymentMethod)
                             || (productFound && !hasCustomer && hasPaymentMethod)
                             || (!productFound && hasCustomer && hasPaymentMethod)
    ensures c == Low <==> ((if productFound then 1 else 0) + (if hasCustomer then 1 else 0)
                           + (if hasPaymentMethod then 1 else 0) <= 1)
  {
    ScoreCounts(productFound, hasCustomer, hasPaymentMethod);
    var score := |Filter([productFound, hasCustomer, hasPaymentMethod], IsSet)|;
    if score == 3 then High else if score == 2 then Medium else Low
  }

  // ==================== the pipeline ====================

  /** Some product passes one of the three tiers for the search. */
  predicate TierPasses(search: string, products: seq<Product>)
  {
    !NonePasses(products, Exact(search)) || !NonePasses(products, Includes(search))
    || !NonePasses(products, SharesKeyword(SearchKeywords(search)))
  }

  /** products[i] is the first product of the first tier that some product
      passes. */
  predicate TierPick(search: string, products: seq<Product>, i: int)
  {
    || FirstPassing(products, Exact(search), i)
    || (NonePasses(products, Exact(search)) && FirstPassing(products, Includes(search), i))
    || (NonePasses(products, Exact(search)) && NonePasses(products, Includes(search))
        && FirstPassing(products, SharesKeyword(SearchKeywords(search)), i))
  }

  function Flag(b: bool): nat { if b then 1 else 0 }

  /** `parseVoiceSale`: the four extractions, the catalogue match and the
      confidence. */
  function ParseVoiceSale(transcript: string, products: seq<Product>): (r: ParsedVoiceSale)
    ensures r.rawTranscript == transcript
    ensures r.quantity == ExtractQuantity(transcript) && r.customerName == ExtractCustomerName(transcript)
            && r.paymentMethod == ExtractPaymentMethod(transcript)
  {
    var quantity := ExtractQuantity(transcript);
    var payment := ExtractPaymentMethod(transcript);
    var customer := ExtractCustomerName(transcript);
    var guess := ExtractProductName(transcript, quantity, customer, payment);
    var matched := FindBestMatchProduct(guess, products);
    var confidence := CalculateConfidence(matched.Some?, customer != "", payment.Some?);
    ParsedVoiceSale(if matched.Some? && matched.value.name != "" then matched.value.name else guess,
                    quantity, customer, payment, confidence, transcript)
  }

  /** The draft names the product the tiers pick when that product has a
      name (`matchedProduct?.name || productName`), and the guessed name
      otherwise; its confidence counts three flags: a product passes a tier,
      a customer is named, a payment method is found. */
  lemma ParseRules(transcript: string, products: seq<Product>)
    ensures var r := ParseVoiceSale(transcript, products);
            var guess := ExtractProductName(transcript, r.quantity, r.customerName, r.paymentMethod);
            var search := Trim(Lower(guess));
            && (forall i :: guess != "" && TierPick(search, products, i)
                            ==> r.productName == if products[i].name != "" then products[i].name else guess)
            && (guess == "" || !TierPasses(search, products) ==> r.productName == guess)
    ensures var r := ParseVoiceSale(transcript, products);
            var guess := ExtractProductName(transcript, r.quantity, r.customerName, r.paymentMethod);
            var n := Flag(guess != "" && TierPasses(Trim(Lower(guess)), products))
                     + Flag(r.customerName != "") + Flag(r.paymentMethod.Some?);
            && (r.confidence == High <==> n == 3)
            && (r.confidence == Medium <==> n == 2)
            && (r.confidence == Low <==> n <= 1)
  {
    var guess := ExtractProductName(transcript, ExtractQuantity(transcript), ExtractCustomerName(transcript),
                                    ExtractPaymentMethod(transcript));
    MatchedTier(guess, products);
  }

  /** The tiers as one rule: the match is the tier pick when there is one,
      and there is none when the guess is empty or no product passes a
      tier. */
  lemma MatchedTier(guess: string, products: seq<Product>)
    ensures var search := Trim(Lower(guess));
            var matched := FindBestMatchProduct(guess, products);
            && (forall i :: guess != "" && TierPick(search, products, i) ==> matched == Some(products[i]))
            && (matched.None? <==> guess == "" || !TierPasses(search, products))
  {
    if guess != "" {
      MatchTiers(guess, products);
    }
  }

  // ==================== validation ====================

  /** `{ isValid, errors }`. */
  datatype Validation = Validation(isValid: bool, errors: seq<string>)

  function ProductMissingMessage(name: string): string
  {
    "Produto \"" + name + "\" não encontrado no catálogo"
  }

  const BadQuantityMessage: string := "Quantidade inválida"

  const NoPaymentMessage: string := "Forma de pagamento não identificada"

  /** Some product's name equals the name up to case. */
  predicate InCatalogue(name: string, products: seq<Product>)
  {
    exists i | 0 <= i < |products| :: Lower(products[i].name) == Lower(name)
  }

  /** `validateParsedSale`: every broken rule adds its message, in the
      order product, quantity, payment method. */
  function ValidateParsedSale(parsed: ParsedVoiceSale, products: seq<Product>): (v: Validation)
    ensures v.isValid <==> InCatalogue(parsed.productName, products) && parsed.quantity >= 1
                           && parsed.paymentMethod.Some?
    ensures v.isValid <==> v.errors == []
    ensures ProductMissingMessage(parsed.productName) in v.errors <==> !InCatalogue(parsed.productName, products)
    ensures BadQuantityMessage in v.errors <==> parsed.quantity < 1
    ensures NoPaymentMessage in v.errors <==> parsed.paymentMethod.None?
    ensures |v.errors| <= 3
    ensures |v.errors| == Flag(!InCatalogue(parsed.productName, products)) + Flag(parsed.quantity < 1)
                          + Flag(parsed.paymentMethod.None?)
    ensures !InCatalogue(parsed.productName, products) ==> v.errors[0] == ProductMissingMessage(parsed.productName)
    ensures parsed.paymentMethod.None? ==> v.errors[|v.errors| - 1] == NoPaymentMessage
  {
    var missing := ProductMissingMessage(parsed.productName);
    assert missing[0] == 'P' && BadQuantityMessage[0] == 'Q' && NoPaymentMessage[0] == 'F';
    var errors := (if !InCatalogue(parsed.productName, products) then [missing] else [])
                  + (if parsed.quantity < 1 then [BadQuantityMessage] else [])
                  + (if parsed.paymentMethod.None? then [NoPaymentMessage] else []);
    Validation(|errors| == 0, errors)
  }

  /** A high-confidence draft whose quantity is at least 1 passes
      validation, provided every catalogue product has a name: the parser
      then reports the matched product's own name. */
  lemma HighConfidenceIsValid(transcript: string, products: seq<Product>)
    requires forall i :: 0 <= i < |products| ==> products[i].name != ""
    requires ParseVoiceSale(transcript, products).confidence == High
    requires ParseVoiceSale(transcript, products).quantity >= 1
    ensures ValidateParsedSale(ParseVoiceSale(transcript, products), products).isValid
  {
    var r := ParseVoiceSale(transcript, products);
    var guess := ExtractProductName(transcript, ExtractQuantity(transcript),
                                    ExtractCustomerName(transcript), ExtractPaymentMethod(transcript));
    var matched := FindBestMatchProduct(guess, products);
    var i :| 0 <= i < |products| && products[i] == matched.value;
    assert Lower(products[i].name) == Lower(r.productName);
  }
}
