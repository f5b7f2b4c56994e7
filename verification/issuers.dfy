/** `getCardIssuer`: an ordered table of ten issuer patterns, tried in turn;
    the first pattern that matches the whole string names the issuer, and
    "Unknown" is returned when none does.

    Every pattern of the source is an anchored regular expression made of a
    few fixed leading digits or digit classes followed by `[0-9]{k}`. Each one
    is modelled exactly as a predicate: the string consists of decimal digits
    only, has the length the pattern spells out, and its leading characters
    are those the pattern's prefix allows. */
module Issuers {
  import opened Chars

  /** The keys of the source's pattern table. */
  datatype Issuer =
    | Visa | MasterCard | AmericanExpress | Discover | JCB
    | DinersClub | EnRoute | Voyager | HiperCard | Aura

  /** The label `getCardIssuer` returns for a table entry: the key's name. */
  function Label(issuer: Issuer): string {
    match issuer
    case Visa => "Visa"
    case MasterCard => "MasterCard"
    case AmericanExpress => "AmericanExpress"
    case Discover => "Discover"
    case JCB => "JCB"
    case DinersClub => "DinersClub"
    case EnRoute => "EnRoute"
    case Voyager => "Voyager"
    case HiperCard => "HiperCard"
    case Aura => "Aura"
  }

  const Unknown: string := "Unknown"

  /** `s` is `n` characters long and all of them are decimal digits. */
  predicate DigitsOfLength(s: string, n: nat) {
    |s| == n && AllDigits(s)
  }

  /** `pattern.test(s)` for the entry's anchored pattern. Every pattern
      accepts only decimal digits, 14 to 16 of them, and only AmericanExpress,
      JCB, DinersClub, EnRoute and Voyager accept fewer than 16. */
  predicate Matches(issuer: Issuer, s: string)
    ensures Matches(issuer, s) ==> AllDigits(s) && 14 <= |s| <= 16
    ensures Matches(issuer, s) && |s| < 16 ==> issuer in {AmericanExpress, JCB, DinersClub, EnRoute, Voyager}
  {
    match issuer
    // ^[0-9]{16}$
    case Visa => DigitsOfLength(s, 16)
    // ^5[1-5][0-9]{14}$
    case MasterCard => DigitsOfLength(s, 16) && s[0] == '5' && '1' <= s[1] <= '5'
    // ^3[47][0-9]{13}$
    case AmericanExpress => DigitsOfLength(s, 15) && s[0] == '3' && (s[1] == '4' || s[1] == '7')
    // ^6(?:011|5[0-9]{2})[0-9]{12}$
    case Discover => DigitsOfLength(s, 16) && ("6011" <= s || "65" <= s)
    // ^(?:2131|1800|35\d{3})\d{11}$ : the 35 branch is one digit longer
    case JCB => (DigitsOfLength(s, 15) && ("2131" <= s || "1800" <= s)) || (DigitsOfLength(s, 16) && "35" <= s)
    // ^3(?:0[0-5]|[68][0-9])[0-9]{11}$
    case DinersClub => DigitsOfLength(s, 14) && s[0] == '3' && ((s[1] == '0' && '0' <= s[2] <= '5') || s[1] == '6' || s[1] == '8')
    // ^2(?:014|149)[0-9]{11}$
    case EnRoute => DigitsOfLength(s, 15) && ("2014" <= s || "2149" <= s)
    // ^8699[0-9]{11}$
    case Voyager => DigitsOfLength(s, 15) && "8699" <= s
    // ^(606282|637095)[0-9]{10}$
    case HiperCard => DigitsOfLength(s, 16) && ("606282" <= s || "637095" <= s)
    // ^50(?:05|78|79|80|81|82|83|84|85|86|87|88|89)[0-9]{12}$
    case Aura => DigitsOfLength(s, 16) && "50" <= s && s[2..4] in AuraSuffixes
  }

  /** The two digits Aura allows after its leading 50. */
  const AuraSuffixes: set<string> :=
    {"05", "78", "79", "80", "81", "82", "83", "84", "85", "86", "87", "88", "89"}

  /** The table in the source's insertion order, which `Object.entries`
      keeps. */
  const CardPatterns: seq<Issuer> :=
    [Visa, MasterCard, AmericanExpress, Discover, JCB, DinersClub, EnRoute, Voyager, HiperCard, Aura]

  /** The labels of every entry of the table (`LabelsAreDistinct` and
      `AllLabelsAreTableLabels` tie this set to `Label` over `CardPatterns`). */
  const AllLabels: set<string> :=
    {"Visa", "MasterCard", "AmericanExpress", "Discover", "JCB",
     "DinersClub", "EnRoute", "Voyager", "HiperCard", "Aura"}

  /** The table holds every key exactly once, as an object literal does. */
  lemma CardPatternsAreKeys(a: Issuer)
    ensures |CardPatterns| == 10 && a in CardPatterns
    ensures forall i, j :: 0 <= i < j < |CardPatterns| ==> CardPatterns[i] != CardPatterns[j]
  {
    var i := match a
      case Visa => 0 case MasterCard => 1 case AmericanExpress => 2 case Discover => 3 case JCB => 4
      case DinersClub => 5 case EnRoute => 6 case Voyager => 7 case HiperCard => 8 case Aura => 9;
    assert CardPatterns[i] == a;
  }

  /** Distinct keys have distinct labels, none of them the fallback
      "Unknown", and every label is in `AllLabels`. */
  lemma LabelsAreDistinct(a: Issuer, b: Issuer)
    ensures Label(a) == Label(b) ==> a == b
    ensures Label(a) != Unknown
    ensures Label(a) in AllLabels
  {
  }

  /** `AllLabels` holds only labels of table entries. */
  lemma AllLabelsAreTableLabels(l: string)
    requires l in AllLabels
    ensures exists i :: 0 <= i < |CardPatterns| && Label(CardPatterns[i]) == l
  {
    var i :=
      if l == "Visa" then 0 else if l == "MasterCard" then 1 else if l == "AmericanExpress" then 2
      else if l == "Discover" then 3 else if l == "JCB" then 4 else if l == "DinersClub" then 5
      else if l == "EnRoute" then 6 else if l == "Voyager" then 7 else if l == "HiperCard" then 8 else 9;
    assert Label(CardPatterns[i]) == l;
  }

  /** No entry before index `k` matches `s`. */
  predicate NoneMatchBefore(table: seq<Issuer>, k: nat, s: string)
    requires k <= |table|
  {
    forall j :: 0 <= j < k ==> !Matches(table[j], s)
  }

  /** Dropping the first entry of the table shifts "no match before". */
  lemma NoneMatchBeforeTail(table: seq<Issuer>, i: nat, s: string)
    requires 0 < i <= |table|
    ensures NoneMatchBefore(table, i, s) <==> !Matches(table[0], s) && NoneMatchBefore(table[1..], i - 1, s)
  {
    if !Matches(table[0], s) && NoneMatchBefore(table[1..], i - 1, s) {
      forall j | 0 < j < i ensures !Matches(table[j], s) {
        assert table[j] == table[1..][j - 1];
      }
    }
    if NoneMatchBefore(table, i, s) {
      forall j | 0 <= j < i - 1 ensures !Matches(table[1..][j], s) {
        assert table[1..][j] == table[j + 1];
      }
    }
  }

  /** The `for…of` loop with early return: the label of the first entry that
      matches, or "Unknown" when none does. */
  function Classify(table: seq<Issuer>, s: string): (r: string)
    ensures forall i :: 0 <= i < |table| && Matches(table[i], s) && NoneMatchBefore(table, i, s) ==> r == Label(table[i])
    ensures NoneMatchBefore(table, |table|, s) ==> r == Unknown
    ensures r == Unknown || exists i :: 0 <= i < |table| && r == Label(table[i]) && Matches(table[i], s) && NoneMatchBefore(table, i, s)
  {
    if table == [] then Unknown
    else if Matches(table[0], s) then Label(table[0])
    else
      assert forall i :: 0 < i <= |table| && NoneMatchBefore(table[1..], i - 1, s) ==> NoneMatchBefore(table, i, s) by {
        forall i | 0 < i <= |table| {
          NoneMatchBeforeTail(table, i, s);
        }
      }
      assert forall i :: 0 < i <= |table| && NoneMatchBefore(table, i, s) ==> NoneMatchBefore(table[1..], i - 1, s) by {
        forall i | 0 < i <= |table| {
          NoneMatchBeforeTail(table, i, s);
        }
      }
      Classify(table[1..], s)
  }

  /** `getCardIssuer(cardNumber)`: always one of the ten labels or "Unknown". */
  function GetCardIssuer(s: string): (r: string)
    ensures r in AllLabels || r == Unknown
  {
    Classify(CardPatterns, s)
  }

  /*********************************************************************
   * Reading the table in order.
   *********************************************************************/

  /** The first-match reading of `Classify` at one index. */
  lemma ClassifyAt(table: seq<Issuer>, s: string, i: nat)
    requires i < |table| && Matches(table[i], s) && NoneMatchBefore(table, i, s)
    ensures Classify(table, s) == Label(table[i])
  {
  }

  /** Extending "no match before" by one entry that does not match. */
  lemma NoneMatchBeforeNext(table: seq<Issuer>, k: nat, s: string)
    requires k < |table| && NoneMatchBefore(table, k, s) && !Matches(table[k], s)
    ensures NoneMatchBefore(table, k + 1, s)
  {
  }

  /** The table, read in order: a 16-digit string stops at Visa, and of the
      entries after it only the five that accept 14 or 15 digits can match. */
  lemma IssuerDecision(s: string)
    ensures GetCardIssuer(s) ==
      if DigitsOfLength(s, 16) then "Visa"
      else if Matches(AmericanExpress, s) then "AmericanExpress"
      else if Matches(JCB, s) then "JCB"
      else if Matches(DinersClub, s) then "DinersClub"
      else if Matches(EnRoute, s) then "EnRoute"
      else if Matches(Voyager, s) then "Voyager"
      else Unknown
  {
    var t := CardPatterns;
    assert NoneMatchBefore(t, 0, s);
    if DigitsOfLength(s, 16) {
      ClassifyAt(t, s, 0);
      return;
    }
    NoneMatchBeforeNext(t, 0, s);
    NoneMatchBeforeNext(t, 1, s);
    if Matches(AmericanExpress, s) {
      ClassifyAt(t, s, 2);
      return;
    }
    NoneMatchBeforeNext(t, 2, s);
    NoneMatchBeforeNext(t, 3, s);
    if Matches(JCB, s) {
      ClassifyAt(t, s, 4);
      return;
    }
    NoneMatchBeforeNext(t, 4, s);
    if Matches(DinersClub, s) {
      ClassifyAt(t, s, 5);
      return;
    }
    NoneMatchBeforeNext(t, 5, s);
    if Matches(EnRoute, s) {
      ClassifyAt(t, s, 6);
      return;
    }
    NoneMatchBeforeNext(t, 6, s);
    if Matches(Voyager, s) {
      ClassifyAt(t, s, 7);
      return;
    }
    NoneMatchBeforeNext(t, 7, s);
    NoneMatchBeforeNext(t, 8, s);
    NoneMatchBeforeNext(t, 9, s);
  }

  /*********************************************************************
   * Which labels can come back, and for which strings.
   *********************************************************************/

  /** Visa's pattern accepts any 16 digits and comes first, so a string is
      labelled "Visa" exactly when it is 16 decimal digits. */
  lemma SixteenDigitsAreVisa(s: string)
    ensures GetCardIssuer(s) == "Visa" <==> AllDigits(s) && |s| == 16
  {
    IssuerDecision(s);
  }

  /** MasterCard, Discover, HiperCard and Aura only accept 16-digit strings,
      which Visa claims first: those labels are never returned. */
  lemma ShadowedIssuersNeverReturned(s: string)
    ensures GetCardIssuer(s) != Label(MasterCard) && GetCardIssuer(s) != Label(Discover)
    ensures GetCardIssuer(s) != Label(HiperCard) && GetCardIssuer(s) != Label(Aura)
  {
    IssuerDecision(s);
  }

  /** 15 digits starting 34 or 37. */
  lemma AmericanExpressShape(s: string)
    ensures GetCardIssuer(s) == "AmericanExpress" <==> AllDigits(s) && |s| == 15 && ("34" <= s || "37" <= s)
  {
    IssuerDecision(s);
  }

  /** 15 digits starting 2131 or 1800; JCB's 16-digit `35` branch is Visa's. */
  lemma JcbShape(s: string)
    ensures GetCardIssuer(s) == "JCB" <==> AllDigits(s) && |s| == 15 && ("2131" <= s || "1800" <= s)
  {
    IssuerDecision(s);
  }

  /** 14 digits starting 300 to 305, 36 or 38. */
  lemma DinersClubShape(s: string)
    ensures GetCardIssuer(s) == "DinersClub"
        <==> AllDigits(s) && |s| == 14
             && ("300" <= s || "301" <= s || "302" <= s || "303" <= s || "304" <= s || "305" <= s
                 || "36" <= s || "38" <= s)
  {
    IssuerDecision(s);
  }

  /** 15 digits starting 2014 or 2149. */
  lemma EnRouteShape(s: string)
    ensures GetCardIssuer(s) == "EnRoute" <==> AllDigits(s) && |s| == 15 && ("2014" <= s || "2149" <= s)
  {
    IssuerDecision(s);
    if "2014" <= s || "2149" <= s {
      // Neither AmericanExpress (3…) nor JCB (2131…, 1800…) shares these prefixes.
      assert s[0] == '2' && (s[1] == '0' || s[2] == '4');
    }
  }

  /** 15 digits starting 8699. */
  lemma VoyagerShape(s: string)
    ensures GetCardIssuer(s) == "Voyager" <==> AllDigits(s) && |s| == 15 && "8699" <= s
  {
    IssuerDecision(s);
  }

  /** A string with a character other than a decimal digit, or whose length
      is not 14, 15 or 16, matches no pattern. */
  lemma OtherShapesAreUnknown(s: string)
    requires !AllDigits(s) || |s| < 14 || |s| > 16
    ensures GetCardIssuer(s) == Unknown
  {
    IssuerDecision(s);
  }
}
