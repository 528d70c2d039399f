/**
 * Amounts in cents spelled out in Latvian (numberToWordsLV) and English
 * (numberToWordsEN), as printed on invoices ("Summa vārdiem").
 *
 * Each converter splits the amount into euros (amount div 100) and cents
 * (amount mod 100), spells the euros in groups of three digits and
 * prints the cents as plain digits. The converters are modelled as
 * written; each is paired with a reference definition that produces the
 * list of words the output joins with single spaces.
 */
module NumberToWords {
  import opened Text

  // ---------------------------------------------------------------- Latvian

  const LvUnits: seq<string> :=
    ["", "viens", "divi", "trīs", "četri", "pieci", "seši", "septiņi", "astoņi", "deviņi"]
  const LvTeens: seq<string> :=
    ["desmit", "vienpadsmit", "divpadsmit", "trīspadsmit", "četrpadsmit", "piecpadsmit",
     "sešpadsmit", "septiņpadsmit", "astoņpadsmit", "deviņpadsmit"]
  const LvTens: seq<string> :=
    ["", "", "divdesmit", "trīsdesmit", "četrdesmit", "piecdesmit", "sešdesmit",
     "septiņdesmit", "astoņdesmit", "deviņdesmit"]

  /** Every word the Latvian converter can produce for less than a million euros. */
  const LvVocabulary: set<string> :=
    (set i | 1 <= i < |LvUnits| :: LvUnits[i]) + (set i | 0 <= i < |LvTeens| :: LvTeens[i])
    + (set i | 2 <= i < |LvTens| :: LvTens[i]) + {"simts", "simti", "tūkstotis", "tūkstoši"}

  /** The inner convertChunk of numberToWordsLV: each piece is followed by a space and the whole is trimmed. */
  function ChunkLV(n: nat): string
  {
    if n == 0 then ""
    else
      var h := n / 100;
      var t := (n % 100) / 10;
      var u := n % 10;
      var hundreds := if h > 0 then Lookup(LvUnits, h) + (if h == 1 then " simts " else " simti ") else "";
      var rest :=
        if t == 1 then Lookup(LvTeens, u) + " "
        else (if t > 1 then Lookup(LvTens, t) + " " else "") + (if u > 0 then Lookup(LvUnits, u) + " " else "");
      Trim(hundreds + rest)
  }

  /** Reference: the words of a group of digits, in order. */
  function ChunkWordsLV(n: nat): seq<string>
  {
    var h := n / 100;
    var t := (n % 100) / 10;
    var u := n % 10;
    (if h > 0 then [Lookup(LvUnits, h), if h == 1 then "simts" else "simti"] else [])
    + (if t == 1 then [Lookup(LvTeens, u)]
       else (if t > 1 then [Lookup(LvTens, t)] else []) + (if u > 0 then [Lookup(LvUnits, u)] else []))
  }

  /** Reference: the words for a whole number of euros. */
  function AmountWordsLV(euros: nat): seq<string>
  {
    var thousands := euros / 1000;
    (if thousands > 0 then ChunkWordsLV(thousands) + [if thousands == 1 then "tūkstotis" else "tūkstoši"] else [])
    + ChunkWordsLV(euros % 1000)
  }

  /** The `words` of numberToWordsLV before trimming: the thousands group with its word, then the rest. */
  function EuroWordsLV(euros: nat): string
  {
    var thousands := euros / 1000;
    (if thousands > 0 then ChunkLV(thousands) + (if thousands == 1 then " tūkstotis " else " tūkstoši ") else "")
    + ChunkLV(euros % 1000)
  }

  /** The ending of every Latvian amount: " un ", the cents as plain digits, " centi". */
  function CentsLV(cents: nat): string
  {
    " un " + DecimalString(cents) + " centi"
  }

  /** numberToWordsLV. */
  function NumberToWordsLV(amountInCents: nat): (r: string)
    ensures amountInCents / 100 == 0 ==> r == "nulle eiro" + CentsLV(amountInCents % 100)
    ensures EndsWith(r, CentsLV(amountInCents % 100))
  {
    var euros := amountInCents / 100;
    var cents := amountInCents % 100;
    if euros == 0 then EndsWithAppend("nulle eiro", CentsLV(cents)); "nulle eiro" + CentsLV(cents)
    else
      var s := Trim(EuroWordsLV(euros)) + " eiro" + CentsLV(cents);
      EndsWithAppend(Trim(EuroWordsLV(euros)) + " eiro", CentsLV(cents));
      UpperFirstKeepsSuffix(s, CentsLV(cents));
      UpperFirst(s)
  }

  /** Table entries used as words are words; an entry outside a table reads "undefined", also a word. */
  lemma LvLookupWords(i: int)
    ensures i != 0 ==> Word(Lookup(LvUnits, i))
    ensures Word(Lookup(LvTeens, i))
    ensures i != 0 && i != 1 ==> Word(Lookup(LvTens, i))
  {
  }

  /** The words of a group are words, and there are some exactly when the group is not zero. */
  lemma ChunkWordsLVAreWords(n: nat)
    ensures AllWords(ChunkWordsLV(n))
    ensures ChunkWordsLV(n) == [] <==> n == 0
  {
    var h, t, u := n / 100, (n % 100) / 10, n % 10;
    LvLookupWords(h);
    LvLookupWords(t);
    LvLookupWords(u);
  }

  /** A word followed by one space is that word, spaced. */
  lemma SpacedOne(x: string)
    ensures x + " " == Spaced([x])
  {
  }

  /** The hundreds piece of convertChunk: units[h] with " simts " (h = 1) or " simti ". */
  lemma HundredsPieceLV(h: int)
    ensures Lookup(LvUnits, h) + (if h == 1 then " simts " else " simti ")
         == Spaced([Lookup(LvUnits, h), if h == 1 then "simts" else "simti"])
  {
    var x, w := Lookup(LvUnits, h), if h == 1 then "simts" else "simti";
    assert [x, w][..1] == [x];
    assert Join([x, w]) == x + " " + w;
    assert (if h == 1 then " simts " else " simti ") == " " + w + " ";
    assert x + " " + w + " " == x + (" " + w + " ");
  }

  /**
   * convertChunk equals its words joined by single spaces: units[h] then
   * "simts" (h = 1) or "simti" (h > 1); then teens[u] when the tens digit
   * is 1, otherwise tens[t] and units[u] for the non-zero digits.
   */
  lemma ChunkLVIsJoin(n: nat)
    ensures ChunkLV(n) == Join(ChunkWordsLV(n))
  {
    if n > 0 {
      var h, t, u := n / 100, (n % 100) / 10, n % 10;
      var w1 := if h > 0 then [Lookup(LvUnits, h), if h == 1 then "simts" else "simti"] else [];
      var w4 := RestWordsLV(t, u);
      var hundreds := if h > 0 then Lookup(LvUnits, h) + (if h == 1 then " simts " else " simti ") else "";
      assert hundreds == Spaced(w1) by { if h > 0 { HundredsPieceLV(h); } }
      RestPieceLV(t, u);
      SpacedAppend(w1, w4);
      assert ChunkLV(n) == Trim(Spaced(w1) + Spaced(w4));
      assert ChunkWordsLV(n) == w1 + w4;
      ChunkWordsLVAreWords(n);
      JoinEnds(w1 + w4);
      TrimTrailingSpace(Join(w1 + w4));
    }
  }

  /** The words after the hundreds: teens[u] when the tens digit is 1, else tens[t] and units[u] for the non-zero digits. */
  function RestWordsLV(t: int, u: int): seq<string>
  {
    if t == 1 then [Lookup(LvTeens, u)]
    else (if t > 1 then [Lookup(LvTens, t)] else []) + (if u > 0 then [Lookup(LvUnits, u)] else [])
  }

  /** The part of convertChunk after the hundreds: each word followed by a space. */
  lemma RestPieceLV(t: int, u: int)
    ensures (if t == 1 then Lookup(LvTeens, u) + " "
             else (if t > 1 then Lookup(LvTens, t) + " " else "") + (if u > 0 then Lookup(LvUnits, u) + " " else ""))
         == Spaced(RestWordsLV(t, u))
  {
    if t == 1 {
      SpacedOne(Lookup(LvTeens, u));
    } else {
      var w2 := if t > 1 then [Lookup(LvTens, t)] else [];
      var w3 := if u > 0 then [Lookup(LvUnits, u)] else [];
      if t > 1 { SpacedOne(Lookup(LvTens, t)); }
      if u > 0 { SpacedOne(Lookup(LvUnits, u)); }
      SpacedAppend(w2, w3);
    }
  }

  /** Words joined by spaces, with a trailing space when there is at least one word. */
  function Spaced(ws: seq<string>): string
  {
    if ws == [] then "" else Join(ws) + " "
  }

  lemma SpacedAppend(a: seq<string>, b: seq<string>)
    ensures Spaced(a) + Spaced(b) == Spaced(a + b)
  {
    if a == [] {
      assert a + b == b;
    } else if b == [] {
      assert a + b == a;
    } else {
      JoinAppend(a, b);
    }
  }

  /**
   * Trimming `[a words] + " " + mid + " " + [b words]` (b possibly empty)
   * gives the single-space join of all the words.
   */
  lemma TrimJoinAround(a: seq<string>, mid: string, b: seq<string>)
    requires a != [] && AllWords(a) && AllWords(b) && Word(mid)
    ensures Trim(Join(a) + " " + mid + " " + Join(b)) == Join(a + [mid] + b)
  {
    JoinAppend(a, [mid]);
    var am := a + [mid];
    assert Join(am) == Join(a) + " " + mid;
    assert AllWords(am);
    JoinEnds(am);
    if b == [] {
      assert am + b == am;
      assert Join(a) + " " + mid + " " + Join(b) == Join(am) + " ";
      TrimTrailingSpace(Join(am));
    } else {
      JoinAppend(am, b);
      AllWordsAppend(am, b);
      JoinEnds(am + b);
      assert Join(a) + " " + mid + " " + Join(b) == Join(am + b);
    }
  }

  /** The trimmed euro words of numberToWordsLV are the single-space join of the reference words. */
  lemma EuroWordsLVIsJoin(euros: nat)
    requires euros > 0
    ensures Trim(EuroWordsLV(euros)) == Join(AmountWordsLV(euros))
  {
    var thousands, remainder := euros / 1000, euros % 1000;
    if thousands > 0 {
      assert EuroWordsLV(euros) == ChunkLV(thousands) + (if thousands == 1 then " tūkstotis " else " tūkstoši ") + ChunkLV(remainder);
      assert AmountWordsLV(euros) == ChunkWordsLV(thousands) + [if thousands == 1 then "tūkstotis" else "tūkstoši"] + ChunkWordsLV(remainder);
      ThousandsWordsLV(thousands, remainder);
    } else {
      assert EuroWordsLV(euros) == ChunkLV(remainder);
      assert AmountWordsLV(euros) == ChunkWordsLV(remainder);
      ChunkLVIsJoin(remainder);
      ChunkWordsLVAreWords(remainder);
      JoinEnds(ChunkWordsLV(remainder));
    }
  }

  /** With a non-zero thousands group: the group, tūkstotis/tūkstoši, then the remainder. */
  lemma ThousandsWordsLV(thousands: nat, remainder: nat)
    requires thousands > 0
    ensures Trim(ChunkLV(thousands) + (if thousands == 1 then " tūkstotis " else " tūkstoši ") + ChunkLV(remainder))
         == Join(ChunkWordsLV(thousands) + [if thousands == 1 then "tūkstotis" else "tūkstoši"] + ChunkWordsLV(remainder))
  {
    var tk := if thousands == 1 then "tūkstotis" else "tūkstoši";
    ThousandWordLV(thousands);
    ChunkLVIsJoin(thousands);
    ChunkLVIsJoin(remainder);
    ChunkWordsLVAreWords(thousands);
    ChunkWordsLVAreWords(remainder);
    SeparatedBy(ChunkLV(thousands), tk, ChunkLV(remainder));
    TrimJoinAround(ChunkWordsLV(thousands), tk, ChunkWordsLV(remainder));
  }

  /** The thousands word with its surrounding spaces. */
  lemma ThousandWordLV(thousands: nat)
    ensures (if thousands == 1 then " tūkstotis " else " tūkstoši ") == " " + (if thousands == 1 then "tūkstotis" else "tūkstoši") + " "
    ensures Word(if thousands == 1 then "tūkstotis" else "tūkstoši")
  {
  }

  /** Putting a spaced word between two strings, however the concatenation is grouped. */
  lemma SeparatedBy(x: string, w: string, y: string)
    ensures x + (" " + w + " ") + y == x + " " + w + " " + y
  {
  }

  /**
   * For a non-zero number of euros, numberToWordsLV is the capitalised
   * single-space join of the reference words, then " eiro un ", the cents
   * as plain digits and " centi".
   */
  lemma NumberToWordsLVIsJoin(amountInCents: nat)
    requires amountInCents / 100 > 0
    ensures NumberToWordsLV(amountInCents)
         == UpperFirst(Join(AmountWordsLV(amountInCents / 100)) + " eiro" + CentsLV(amountInCents % 100))
  {
    EuroWordsLVIsJoin(amountInCents / 100);
  }

  /** Below a million euros every word comes from the tables (or is simts/simti/tūkstotis/tūkstoši). */
  lemma LvWordsInVocabulary(euros: nat)
    requires euros < 1000000
    ensures forall w :: w in AmountWordsLV(euros) ==> w in LvVocabulary
  {
    var thousands := euros / 1000;
    forall n: nat | n < 1000
      ensures forall w :: w in ChunkWordsLV(n) ==> w in LvVocabulary
    {
      var h, t, u := n / 100, (n % 100) / 10, n % 10;
      assert h > 0 ==> LvUnits[h] in LvVocabulary;
      assert t > 1 ==> LvTens[t] in LvVocabulary;
      assert LvTeens[u] in LvVocabulary;
      assert u > 0 ==> LvUnits[u] in LvVocabulary;
    }
  }

  /**
   * From a million euros on, the thousands group has a hundreds digit of 10
   * or more, beyond the units table: the first word is "undefined", and the
   * output begins "Undefined".
   */
  lemma LvMillionsUndefined(amountInCents: nat)
    requires amountInCents / 100 >= 1000000
    ensures StartsWith(NumberToWordsLV(amountInCents), "Undefined")
  {
    var ws := AmountWordsLV(amountInCents / 100);
    LvFirstWordUndefined(amountInCents / 100);
    JoinEnds(ws);
    NumberToWordsLVIsJoin(amountInCents);
    UndefinedFirst(Join(ws), " eiro", CentsLV(amountInCents % 100));
  }

  /** A string beginning "undefined", with anything after it, begins "Undefined" once capitalised. */
  lemma UndefinedFirst(s: string, t: string, u: string)
    requires StartsWith(s, "undefined")
    ensures StartsWith(UpperFirst(s + t + u), "Undefined")
  {
    StartsWithAppend(s, t, "undefined");
    StartsWithAppend(s + t, u, "undefined");
    UpperFirstPrefix(s + t + u, "undefined");
    assert ToUpper('u') == 'U';
    assert "undefined"[1..] == "ndefined";
    assert ['U'] + "ndefined" == "Undefined";
  }

  /** From a million euros on, the first of the reference words is "undefined". */
  lemma LvFirstWordUndefined(euros: nat)
    requires euros >= 1000000
    ensures AllWords(AmountWordsLV(euros))
    ensures AmountWordsLV(euros) != [] && AmountWordsLV(euros)[0] == "undefined"
  {
    var thousands := euros / 1000;
    assert thousands / 100 >= 10;
    assert ChunkWordsLV(thousands)[0] == "undefined";
    ChunkWordsLVAreWords(thousands);
    ChunkWordsLVAreWords(euros % 1000);
    var tk := if thousands == 1 then "tūkstotis" else "tūkstoši";
    AllWordsAppend(ChunkWordsLV(thousands), [tk]);
    AllWordsAppend(ChunkWordsLV(thousands) + [tk], ChunkWordsLV(euros % 1000));
  }

  // ---------------------------------------------------------------- English

  const EnOnes: seq<string> :=
    ["", "one", "two", "three", "four", "five", "six", "seven", "eight", "nine",
     "ten", "eleven", "twelve", "thirteen", "fourteen", "fifteen", "sixteen", "seventeen", "eighteen", "nineteen"]
  const EnTens: seq<string> :=
    ["", "", "twenty", "thirty", "forty", "fifty", "sixty", "seventy", "eighty", "ninety"]

  /** The inner convertChunk of numberToWordsEN. */
  function ChunkEN(n: nat): string
    decreases n
  {
    if n == 0 then ""
    else if n < 20 then Lookup(EnOnes, n)
    else if n < 100 then Lookup(EnTens, n / 10) + (if n % 10 > 0 then "-" + Lookup(EnOnes, n % 10) else "")
    else Lookup(EnOnes, n / 100) + " hundred" + (if n % 100 > 0 then " " + ChunkEN(n % 100) else "")
  }

  /** The word for 20..99: the tens word, joined to a non-zero units word by a hyphen. */
  function TensWordEN(n: nat): string
  {
    Lookup(EnTens, n / 10) + (if n % 10 > 0 then "-" + Lookup(EnOnes, n % 10) else "")
  }

  /** Reference: the words of a group of digits, in order. */
  function ChunkWordsEN(n: nat): seq<string>
    decreases n
  {
    if n == 0 then []
    else if n < 20 then [Lookup(EnOnes, n)]
    else if n < 100 then [TensWordEN(n)]
    else [Lookup(EnOnes, n / 100), "hundred"] + ChunkWordsEN(n % 100)
  }

  /** Table entries used as words are words; an entry outside a table reads "undefined", also a word. */
  lemma EnLookupWords(i: int)
    ensures i != 0 ==> Word(Lookup(EnOnes, i))
    ensures i != 0 && i != 1 ==> Word(Lookup(EnTens, i))
  {
  }

  lemma TensWordENIsWord(n: nat)
    requires 20 <= n
    ensures Word(TensWordEN(n))
  {
    EnLookupWords(n / 10);
    EnLookupWords(n % 10);
    var w := TensWordEN(n);
    assert w[0] == Lookup(EnTens, n / 10)[0];
  }

  lemma {:induction false} ChunkWordsENAreWords(n: nat)
    ensures AllWords(ChunkWordsEN(n))
    ensures ChunkWordsEN(n) == [] <==> n == 0
    decreases n
  {
    if n == 0 {
    } else if n < 20 {
      EnLookupWords(n);
    } else if n < 100 {
      TensWordENIsWord(n);
    } else {
      var r := n % 100;
      ChunkWordsENAreWords(r);
      EnLookupWords(n / 100);
      var head := [Lookup(EnOnes, n / 100), "hundred"];
      assert AllWords(head);
      AllWordsAppend(head, ChunkWordsEN(r));
    }
  }

  /** convertChunk equals its words joined by single spaces ("one hundred twenty-three"). */
  lemma {:induction false} ChunkENIsJoin(n: nat)
    ensures ChunkEN(n) == Join(ChunkWordsEN(n))
    decreases n
  {
    if n >= 100 {
      var head := [Lookup(EnOnes, n / 100), "hundred"];
      assert Join(head) == Lookup(EnOnes, n / 100) + " hundred";
      if n % 100 > 0 {
        ChunkENIsJoin(n % 100);
        ChunkWordsENAreWords(n % 100);
        JoinAppend(head, ChunkWordsEN(n % 100));
      } else {
        assert ChunkWordsEN(n) == head;
      }
    }
  }

  /** The part after the number of euros: the unit ("euro" only for one) and the cents ("cent" only for one). */
  function TailEN(euros: nat, cents: nat): string
  {
    (if euros == 1 then " euro" else " euros") + CentsEN(cents)
  }

  /** What follows the unit word: " and ", the cents as plain digits, and the cent word. */
  function CentsEN(cents: nat): string
  {
    " and " + DecimalString(cents) + " cent" + (if cents != 1 then "s" else "")
  }

  /** The `words` of numberToWordsEN before trimming, as written: " thousand " follows every amount from a thousand euros on. */
  function EuroWordsEN(euros: nat): string
  {
    (if euros >= 1000000 then ChunkEN(euros / 1000000) + " million " else "")
    + (if euros >= 1000 then ChunkEN((euros % 1000000) / 1000) + " thousand " else "")
    + ChunkEN(euros % 1000)
  }

  /** numberToWordsEN, as written. */
  function NumberToWordsEN(amountInCents: nat): (r: string)
    ensures amountInCents / 100 == 0 ==> r == "Zero euros and " + DecimalString(amountInCents % 100) + " cents"
    ensures amountInCents / 100 > 0 ==> EndsWith(r, TailEN(amountInCents / 100, amountInCents % 100))
  {
    var euros := amountInCents / 100;
    var cents := amountInCents % 100;
    if euros == 0 then "Zero euros and " + DecimalString(cents) + " cents"
    else
      var s := Trim(EuroWordsEN(euros)) + TailEN(euros, cents);
      assert TailEN(euros, cents)[0] == ' ';
      EndsWithAppend(Trim(EuroWordsEN(euros)), TailEN(euros, cents));
      UpperFirstKeepsSuffix(s, TailEN(euros, cents));
      UpperFirst(s)
  }

  /**
   * The cent word: "cent" exactly when there are euros and one cent, "cents"
   * otherwise; a zero-euro amount says "cents" even for one cent.
   */
  lemma EnCentWord(amountInCents: nat)
    ensures EndsWith(NumberToWordsEN(amountInCents), " cent") <==> amountInCents / 100 > 0 && amountInCents % 100 == 1
    ensures EndsWith(NumberToWordsEN(amountInCents), " cents") <==> !(amountInCents / 100 > 0 && amountInCents % 100 == 1)
  {
    EnCentSuffix(amountInCents);
    CentSuffixes(NumberToWordsEN(amountInCents), if amountInCents / 100 > 0 && amountInCents % 100 == 1 then " cent" else " cents");
  }

  lemma EnCentSuffix(amountInCents: nat)
    ensures EndsWith(NumberToWordsEN(amountInCents), if amountInCents / 100 > 0 && amountInCents % 100 == 1 then " cent" else " cents")
  {
    var euros, cents := amountInCents / 100, amountInCents % 100;
    if euros == 0 {
      EndsWithAppend("Zero euros and " + DecimalString(cents), " cents");
    } else {
      var head := (if euros == 1 then " euro" else " euros") + " and " + DecimalString(cents);
      var word := if cents == 1 then " cent" else " cents";
      assert TailEN(euros, cents) == head + word;
      EndsWithAppend(head, word);
      EndsWithTrans(NumberToWordsEN(amountInCents), TailEN(euros, cents), word);
    }
  }

  /** For a non-zero number of euros, the unit word is "euro" exactly when there is one euro. */
  lemma EnEuroWord(amountInCents: nat)
    requires amountInCents / 100 > 0
    ensures EndsWith(NumberToWordsEN(amountInCents), " euro" + CentsEN(amountInCents % 100)) <==> amountInCents / 100 == 1
    ensures EndsWith(NumberToWordsEN(amountInCents), " euros" + CentsEN(amountInCents % 100)) <==> amountInCents / 100 != 1
  {
    UnitSuffixes(NumberToWordsEN(amountInCents), if amountInCents / 100 == 1 then " euro" else " euros", CentsEN(amountInCents % 100));
  }

  /** A string ending in " euro" then `t` does not end in " euros" then `t`, and the other way round. */
  lemma UnitSuffixes(r: string, unit: string, t: string)
    requires unit == " euro" || unit == " euros"
    requires EndsWith(r, unit + t)
    ensures EndsWith(r, " euro" + t) <==> unit == " euro"
    ensures EndsWith(r, " euros" + t) <==> unit == " euros"
  {
    EndsWithBefore(r, unit, t);
    if EndsWith(r, " euro" + t) { EndsWithBefore(r, " euro", t); }
    if EndsWith(r, " euros" + t) { EndsWithBefore(r, " euros", t); }
  }

  /** A string ending in " cent" does not end in " cents", and the other way round. */
  lemma CentSuffixes(r: string, word: string)
    requires word == " cent" || word == " cents"
    requires EndsWith(r, word)
    ensures EndsWith(r, " cent") <==> word == " cent"
    ensures EndsWith(r, " cents") <==> word == " cents"
  {
    EndsWithLast(r, word);
    if EndsWith(r, " cent") { EndsWithLast(r, " cent"); }
    if EndsWith(r, " cents") { EndsWithLast(r, " cents"); }
  }

  /** Reference: the words for a whole number of euros, leaving out groups that are zero. */
  function AmountWordsEN(euros: nat): seq<string>
  {
    var millions := euros / 1000000;
    var thousands := (euros % 1000000) / 1000;
    (if millions > 0 then ChunkWordsEN(millions) + ["million"] else [])
    + (if thousands > 0 then ChunkWordsEN(thousands) + ["thousand"] else [])
    + ChunkWordsEN(euros % 1000)
  }

  /** The euro words with the thousands segment emitted only when that group is not zero. */
  function EuroWordsENCorrected(euros: nat): string
  {
    (if euros >= 1000000 then ChunkEN(euros / 1000000) + " million " else "")
    + (if (euros % 1000000) / 1000 > 0 then ChunkEN((euros % 1000000) / 1000) + " thousand " else "")
    + ChunkEN(euros % 1000)
  }

  /** numberToWordsEN as evidently intended: a zero thousands group is skipped like an absent one. */
  function NumberToWordsENCorrected(amountInCents: nat): (r: string)
    ensures amountInCents / 100 == 0 ==> r == "Zero euros and " + DecimalString(amountInCents % 100) + " cents"
    ensures amountInCents / 100 > 0 ==>
      r == UpperFirst(Join(AmountWordsEN(amountInCents / 100)) + TailEN(amountInCents / 100, amountInCents % 100))
  {
    var euros := amountInCents / 100;
    var cents := amountInCents % 100;
    if euros == 0 then "Zero euros and " + DecimalString(cents) + " cents"
    else
      EuroWordsENCorrectedIsJoin(euros);
      UpperFirst(Trim(EuroWordsENCorrected(euros)) + TailEN(euros, cents))
  }

  /** A group with its scale word ("million", "thousand") and a space after each, or nothing for a zero group. */
  lemma ScaledGroupEN(n: nat, scale: string)
    requires Word(scale)
    ensures (if n > 0 then ChunkEN(n) + (" " + scale + " ") else "") == Spaced(if n > 0 then ChunkWordsEN(n) + [scale] else [])
  {
    if n > 0 {
      ChunkENIsJoin(n);
      ChunkWordsENAreWords(n);
      JoinAppend(ChunkWordsEN(n), [scale]);
      SeparatedBy(ChunkEN(n), scale, "");
      assert ChunkEN(n) + (" " + scale + " ") + "" == ChunkEN(n) + (" " + scale + " ");
    }
  }

  /** The corrected converter's million and thousand segments, each followed by a space, and its last group. */
  lemma EuroWordsENCorrectedSpaced(euros: nat)
    ensures EuroWordsENCorrected(euros)
         == Spaced((if euros / 1000000 > 0 then ChunkWordsEN(euros / 1000000) + ["million"] else [])
                   + (if (euros % 1000000) / 1000 > 0 then ChunkWordsEN((euros % 1000000) / 1000) + ["thousand"] else []))
            + Join(ChunkWordsEN(euros % 1000))
  {
    var m, k, rest := euros / 1000000, (euros % 1000000) / 1000, euros % 1000;
    var a := if m > 0 then ChunkWordsEN(m) + ["million"] else [];
    var b := if k > 0 then ChunkWordsEN(k) + ["thousand"] else [];
    assert " million " == " " + "million" + " ";
    assert " thousand " == " " + "thousand" + " ";
    ScaledGroupEN(m, "million");
    ScaledGroupEN(k, "thousand");
    assert EuroWordsENCorrected(euros)
        == (if m > 0 then ChunkEN(m) + " million " else "") + (if k > 0 then ChunkEN(k) + " thousand " else "") + ChunkEN(rest);
    SpacedAppend(a, b);
    ChunkENIsJoin(rest);
  }

  /** The trimmed euro words of the corrected converter are the single-space join of the reference words. */
  lemma EuroWordsENCorrectedIsJoin(euros: nat)
    requires euros > 0
    ensures Trim(EuroWordsENCorrected(euros)) == Join(AmountWordsEN(euros))
  {
    var m, k, rest := euros / 1000000, (euros % 1000000) / 1000, euros % 1000;
    var a := if m > 0 then ChunkWordsEN(m) + ["million"] else [];
    var b := if k > 0 then ChunkWordsEN(k) + ["thousand"] else [];
    var c := ChunkWordsEN(rest);
    EuroWordsENCorrectedSpaced(euros);
    assert AmountWordsEN(euros) == (a + b) + c;
    WordsOfGroupsEN(m, k, rest);
    SpacedThenJoinTrim(a + b, c);
  }

  /** The reference word lists of the three groups are all words. */
  lemma WordsOfGroupsEN(m: nat, k: nat, rest: nat)
    ensures AllWords((if m > 0 then ChunkWordsEN(m) + ["million"] else [])
                     + (if k > 0 then ChunkWordsEN(k) + ["thousand"] else []))
    ensures AllWords(ChunkWordsEN(rest))
  {
    ChunkWordsENAreWords(m);
    ChunkWordsENAreWords(k);
    ChunkWordsENAreWords(rest);
  }

  /** Trimming spaced words followed by joined words gives the join of all the words (when there are some). */
  lemma SpacedThenJoinTrim(a: seq<string>, c: seq<string>)
    requires AllWords(a) && AllWords(c)
    ensures Trim(Spaced(a) + Join(c)) == Join(a + c)
  {
    if c == [] {
      assert a + c == a;
      assert Spaced(a) + Join(c) == Spaced(a);
      if a != [] {
        JoinEnds(a);
        TrimTrailingSpace(Join(a));
      }
    } else if a == [] {
      assert a + c == c;
      assert Spaced(a) + Join(c) == Join(c);
      JoinEnds(c);
    } else {
      JoinAppend(a, c);
      assert Spaced(a) + Join(c) == Join(a + c);
      AllWordsAppend(a, c);
      JoinEnds(a + c);
    }
  }

  /** Wherever the as-written converter emits a thousands segment for a non-zero group, it agrees with the corrected one. */
  lemma EnAgreesOutsideZeroThousands(amountInCents: nat)
    requires amountInCents / 100 < 1000000 || (amountInCents / 100 % 1000000) / 1000 > 0
    ensures NumberToWordsEN(amountInCents) == NumberToWordsENCorrected(amountInCents)
  {
    var euros := amountInCents / 100;
    if euros > 0 {
      assert euros >= 1000 <==> (euros % 1000000) / 1000 > 0 || euros >= 1000000;
      assert EuroWordsEN(euros) == EuroWordsENCorrected(euros);
    }
  }

  /**
   * From a million euros on with a zero thousands group, the as-written
   * converter still emits " thousand " after an empty group: the output is
   * the millions words, "million", two spaces, "thousand", then the rest.
   */
  lemma EnZeroThousandsAsWritten(amountInCents: nat)
    requires amountInCents / 100 >= 1000000 && (amountInCents / 100 % 1000000) / 1000 == 0
    ensures NumberToWordsEN(amountInCents)
         == UpperFirst(Join(ChunkWordsEN(amountInCents / 100 / 1000000) + ["million"]) + "  thousand"
                       + (if amountInCents / 100 % 1000 > 0 then " " + Join(ChunkWordsEN(amountInCents / 100 % 1000)) else "")
                       + TailEN(amountInCents / 100, amountInCents % 100))
  {
    var euros := amountInCents / 100;
    var m, rest := euros / 1000000, euros % 1000;
    assert EuroWordsEN(euros) == ChunkEN(m) + " million " + ChunkEN(0) + " thousand " + ChunkEN(rest);
    ZeroThousandsWords(m, rest);
  }

  /** The untrimmed words when the thousands group is zero, and their trimmed form. */
  lemma ZeroThousandsWords(m: nat, rest: nat)
    requires m > 0
    ensures Trim(ChunkEN(m) + " million " + ChunkEN(0) + " thousand " + ChunkEN(rest))
         == Join(ChunkWordsEN(m) + ["million"]) + "  thousand" + (if rest > 0 then " " + Join(ChunkWordsEN(rest)) else "")
  {
    var j := Join(ChunkWordsEN(m) + ["million"]);
    var r := Join(ChunkWordsEN(rest));
    MillionGroupEN(m);
    ChunkENIsJoin(rest);
    ChunkWordsENAreWords(rest);
    JoinEnds(ChunkWordsEN(rest));
    assert ChunkEN(0) == "";
    EmptyThousandsGroup(ChunkEN(m) + " million ", j, ChunkEN(rest));
    TrimAroundThousand(j, r);
  }

  lemma EmptyThousandsGroup(x: string, j: string, y: string)
    requires x == j + " "
    ensures x + "" + " thousand " + y == j + " " + " thousand " + y
  {
    assert x + "" == x;
  }

  /** The millions group with "million" and a space: the joined words (trimmed, non-empty) and a space. */
  lemma MillionGroupEN(m: nat)
    requires m > 0
    ensures ChunkEN(m) + " million " == Join(ChunkWordsEN(m) + ["million"]) + " "
    ensures Join(ChunkWordsEN(m) + ["million"]) != [] && Trimmed(Join(ChunkWordsEN(m) + ["million"]))
  {
    assert " million " == " " + "million" + " ";
    ScaledGroupEN(m, "million");
    ChunkWordsENAreWords(m);
    AllWordsAppend(ChunkWordsEN(m), ["million"]);
    JoinEnds(ChunkWordsEN(m) + ["million"]);
  }

  /** A trimmed non-empty string, two spaces, "thousand", a space and a trimmed string, trimmed. */
  lemma TrimAroundThousand(j: string, r: string)
    requires j != [] && Trimmed(j) && Trimmed(r)
    ensures Trim(j + " " + " thousand " + r) == j + "  thousand" + (if r != [] then " " + r else "")
  {
    var head := j + "  thousand";
    assert head[0] == j[0];
    assert Trimmed(head);
    if r == [] {
      assert j + " " + " thousand " + r == head + " ";
      TrimTrailingSpace(head);
    } else {
      var w := head + " " + r;
      assert j + " " + " thousand " + r == w;
      assert w[0] == j[0] && w[|w| - 1] == r[|r| - 1];
      assert Trimmed(w);
      assert head + (" " + r) == w;
    }
  }

  /** The smallest amount that shows it: one million euros (100000000 cents). */
  lemma EnMillionCounterexample(amountInCents: nat)
    requires amountInCents == 100000000
    ensures NumberToWordsEN(amountInCents) == "One million  thousand euros and 0 cents"
    ensures NumberToWordsENCorrected(amountInCents) == "One million euros and 0 cents"
  {
    EnMillionAsWritten(amountInCents);
    EnMillionCorrected(amountInCents);
  }

  lemma EnMillionAsWritten(amountInCents: nat)
    requires amountInCents == 100000000
    ensures NumberToWordsEN(amountInCents) == "One million  thousand euros and 0 cents"
  {
    assert NumberToWordsEN(amountInCents)
        == UpperFirst(Join(ChunkWordsEN(1) + ["million"]) + "  thousand" + "" + TailEN(1000000, 0)) by {
      assert amountInCents / 100 == 1000000 && amountInCents % 100 == 0;
      assert 1000000 / 1000000 == 1 && 1000000 % 1000 == 0 && (1000000 % 1000000) / 1000 == 0;
      EnZeroThousandsAsWritten(amountInCents);
    }
    assert Join(ChunkWordsEN(1) + ["million"]) == "one million" by { OneMillionWords(); }
    assert TailEN(1000000, 0) == " euros and 0 cents" by { OneMillionTail(); }
    OneMillionSpelled();
  }

  lemma EnMillionCorrected(amountInCents: nat)
    requires amountInCents == 100000000
    ensures NumberToWordsENCorrected(amountInCents) == "One million euros and 0 cents"
  {
    assert NumberToWordsENCorrected(amountInCents) == UpperFirst(Join(AmountWordsEN(1000000)) + TailEN(1000000, 0)) by {
      assert amountInCents / 100 == 1000000 && amountInCents % 100 == 0;
    }
    assert Join(AmountWordsEN(1000000)) == "one million" by { OneMillionWords(); }
    assert TailEN(1000000, 0) == " euros and 0 cents" by { OneMillionTail(); }
    OneMillionSpelled();
  }

  /** One million euros in words. */
  lemma OneMillionWords()
    ensures AmountWordsEN(1000000) == ChunkWordsEN(1) + ["million"] == ["one", "million"]
    ensures Join(["one", "million"]) == "one million"
  {
    assert ChunkWordsEN(1) == ["one"];
    assert ["one", "million"][..1] == ["one"];
  }

  lemma OneMillionTail()
    ensures TailEN(1000000, 0) == " euros and 0 cents"
  {
    assert DecimalString(0) == "0";
  }

  lemma OneMillionSpelled()
    ensures UpperFirst("one million" + "  thousand" + "" + " euros and 0 cents") == "One million  thousand euros and 0 cents"
    ensures UpperFirst("one million" + " euros and 0 cents") == "One million euros and 0 cents"
  {
    MillionThousand();
    UpperFirstAppend("one million  thousand", " euros and 0 cents");
    UpperFirstAppend("one million", " euros and 0 cents");
    UpperOneMillion();
    SpelledAsWritten();
    SpelledCorrected();
  }

  lemma MillionThousand()
    ensures "one million" + "  thousand" + "" == "one million  thousand"
  {
  }

  lemma UpperOneMillion()
    ensures UpperFirst("one million  thousand") == "One million  thousand"
    ensures UpperFirst("one million") == "One million"
  {
    UpperFirstAppend("one", " million  thousand");
    UpperFirstAppend("one", " million");
    UpperOne();
    OneMillionPieces();
  }

  lemma UpperOne()
    ensures UpperFirst("one") == "One"
  {
    assert "one"[1..] == "ne";
  }

  lemma OneMillionPieces()
    ensures "one" + " million  thousand" == "one million  thousand" && "One" + " million  thousand" == "One million  thousand"
    ensures "one" + " million" == "one million" && "One" + " million" == "One million"
  {
  }

  lemma SpelledAsWritten()
    ensures "One million  thousand" + " euros and 0 cents" == "One million  thousand euros and 0 cents"
  {
  }

  lemma SpelledCorrected()
    ensures "One million" + " euros and 0 cents" == "One million euros and 0 cents"
  {
  }
}
