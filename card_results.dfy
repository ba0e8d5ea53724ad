/**
 * The results list: for every submitted card, look it up by exact,
 * case-insensitive name in the loaded set files and render one row.
 */
module CardResults {
  import opened Wrappers
  import opened JsString

  /** The fields of an MTGJSON card the results list reads. */
  datatype Card = Card(name: string, cardType: Option<string>, manaCost: Option<string>, text: Option<string>)

  /** `setData.data`: holds the set's `cards` array, which may be missing. */
  datatype SetData = SetData(cards: Option<seq<Card>>)

  /** One loaded set file, whose `data` may be missing. */
  datatype SetFile = SetFile(data: Option<SetData>)

  /** `mtgData`: the loaded set files by set code, in the object's key order. */
  type LoadedSets = seq<(string, SetFile)>

  /** A submitted card: a plain line of text, or an object with a name and maybe a set code. */
  datatype CardRequest = Plain(line: string) | Named(name: string, setCode: Option<string>)

  /** What `getCardInfo` returns: a card, `undefined` (from `find`) or `null`. */
  datatype CardInfo = Found(card: Card) | Undefined | Null

  /** `typeof card === 'string' ? card : card.name` */
  function RequestName(card: CardRequest): string {
    match card
    case Plain(line) => line
    case Named(name, _) => name
  }

  /** `typeof card === 'object' ? card.setCode : null` */
  function RequestSetCode(card: CardRequest): Option<string> {
    match card
    case Plain(_) => None
    case Named(_, setCode) => setCode
  }

  /** `c.name.toLowerCase() === cardName.toLowerCase()` */
  predicate NameMatches(c: Card, name: string) {
    ToLowerCase(c.name) == ToLowerCase(name)
  }

  /** Two characters are equal, or are the same ASCII letter in the two cases. */
  predicate SameLetterIgnoringCase(a: char, b: char) {
    || a == b
    || ('A' <= a <= 'Z' && b as int == a as int + 32)
    || ('a' <= a <= 'z' && b as int == a as int - 32)
  }

  /**
   * A card's name matches the request exactly when the two have the same
   * length and agree at every position up to ASCII case.
   */
  lemma NameMatchesIgnoringCase(c: Card, name: string)
    ensures NameMatches(c, name) <==>
      |c.name| == |name| && forall i :: 0 <= i < |name| ==> SameLetterIgnoringCase(c.name[i], name[i])
  {
    var a, b := ToLowerCase(c.name), ToLowerCase(name);
    if |c.name| == |name| {
      if forall i :: 0 <= i < |name| ==> SameLetterIgnoringCase(c.name[i], name[i]) {
        forall i | 0 <= i < |name| ensures a[i] == b[i] {
          assert a[i] == LowerChar(c.name[i]) && b[i] == LowerChar(name[i]);
        }
        assert a == b;
      }
      if a == b {
        forall i | 0 <= i < |name| ensures SameLetterIgnoringCase(c.name[i], name[i]) {
          assert a[i] == LowerChar(c.name[i]) && b[i] == LowerChar(name[i]);
        }
      }
    }
  }

  /** `set.data && set.data.cards`: the set's cards when both are present. */
  function CardsOf(f: SetFile): Option<seq<Card>> {
    if f.data.Some? && f.data.value.cards.Some? then f.data.value.cards else None
  }

  /** `cards[i]` is the first card whose name matches. */
  predicate IsFirstMatch(cards: seq<Card>, name: string, i: int) {
    && 0 <= i < |cards|
    && NameMatches(cards[i], name)
    && forall j :: 0 <= j < i ==> !NameMatches(cards[j], name)
  }

  /** No card's name matches. */
  predicate NoMatch(cards: seq<Card>, name: string) {
    forall j :: 0 <= j < |cards| ==> !NameMatches(cards[j], name)
  }

  /** `cards.find(c => ...)`: the first card, in array order, whose name matches. */
  function FindCard(cards: seq<Card>, name: string): (r: Option<Card>)
    ensures r.Some? ==> exists i :: IsFirstMatch(cards, name, i) && cards[i] == r.value
    ensures r.None? <==> NoMatch(cards, name)
    decreases |cards|
  {
    if cards == [] then None
    else if NameMatches(cards[0], name) then
      assert IsFirstMatch(cards, name, 0);
      Some(cards[0])
    else
      var r := FindCard(cards[1..], name);
      assert forall j :: 1 <= j < |cards| ==> cards[j] == cards[1..][j - 1];
      assert r.Some? ==> exists i :: IsFirstMatch(cards, name, i) && cards[i] == r.value by {
        if r.Some? {
          var i :| IsFirstMatch(cards[1..], name, i) && cards[1..][i] == r.value;
          assert IsFirstMatch(cards, name, i + 1);
        }
      }
      r
  }

  /** `mtgData[setCode]`: the file loaded under exactly this key, if any. */
  function LookupSet(sets: LoadedSets, code: string): (r: Option<SetFile>)
    ensures r.Some? ==> exists i :: 0 <= i < |sets| && sets[i] == (code, r.value)
    ensures r.None? <==> forall i :: 0 <= i < |sets| ==> sets[i].0 != code
    decreases |sets|
  {
    if sets == [] then None
    else if sets[0].0 == code then Some(sets[0].1)
    else
      var r := LookupSet(sets[1..], code);
      assert forall i :: 1 <= i < |sets| ==> sets[i] == sets[1..][i - 1];
      r
  }

  /** The set holds cards and one of them matches. */
  predicate HasMatch(f: SetFile, name: string) {
    CardsOf(f).Some? && !NoMatch(CardsOf(f).value, name)
  }

  /** `sets[i]` is the first set, in load order, holding a matching card. */
  predicate IsFirstSetWithMatch(sets: LoadedSets, name: string, i: int) {
    && 0 <= i < |sets|
    && HasMatch(sets[i].1, name)
    && forall j :: 0 <= j < i ==> !HasMatch(sets[j].1, name)
  }

  /**
   * The fallback `for...of` over `Object.values(mtgData)`: the first match
   * in the first set, in load order, that holds one; sets without cards are
   * skipped.
   */
  function SearchAllSets(sets: LoadedSets, name: string): (r: Option<Card>)
    ensures r.Some? ==> exists i :: IsFirstSetWithMatch(sets, name, i) && FindCard(CardsOf(sets[i].1).value, name) == r
    ensures r.None? <==> forall i :: 0 <= i < |sets| ==> !HasMatch(sets[i].1, name)
    decreases |sets|
  {
    if sets == [] then None
    else
      var cards := CardsOf(sets[0].1);
      var found := if cards.Some? then FindCard(cards.value, name) else None;
      if found.Some? then
        assert IsFirstSetWithMatch(sets, name, 0);
        found
      else
        var r := SearchAllSets(sets[1..], name);
        assert forall i :: 1 <= i < |sets| ==> sets[i] == sets[1..][i - 1];
        assert r.Some? ==> exists i :: IsFirstSetWithMatch(sets, name, i) && FindCard(CardsOf(sets[i].1).value, name) == r by {
          if r.Some? {
            var i :| IsFirstSetWithMatch(sets[1..], name, i) && FindCard(CardsOf(sets[1..][i].1).value, name) == r;
            assert IsFirstSetWithMatch(sets, name, i + 1);
          }
        }
        r
  }

  /**
   * The request names a set code (a non-empty string), a file is loaded under
   * exactly that key, and the file holds cards: `getCardInfo` searches that
   * set only.
   */
  predicate InSetBranch(sets: LoadedSets, card: CardRequest) {
    var code := RequestSetCode(card);
    && code.Some? && code.value != ""
    && LookupSet(sets, code.value).Some?
    && CardsOf(LookupSet(sets, code.value).value).Some?
  }

  /** The cards of the requested set, when the set branch applies. */
  function SetCards(sets: LoadedSets, card: CardRequest): seq<Card>
    requires InSetBranch(sets, card)
  {
    CardsOf(LookupSet(sets, RequestSetCode(card).value).value).value
  }

  /**
   * `getCardInfo`. No data (or no set) gives `null`. In the set branch the
   * result is the first match in that set's cards, or `undefined` when none
   * matches; no other set is looked at. Otherwise the result is the first
   * match of the first set that has one, or `null` when no set has one.
   * Whatever card is returned has the requested name, ignoring case.
   */
  function GetCardInfo(mtgData: Option<LoadedSets>, card: CardRequest): (r: CardInfo)
    ensures (mtgData.None? || mtgData.value == []) ==> r == Null
    ensures r.Found? ==> NameMatches(r.card, RequestName(card))
    ensures mtgData.Some? && mtgData.value != [] && InSetBranch(mtgData.value, card) ==>
      var cards := SetCards(mtgData.value, card);
      || (r.Found? && exists i :: IsFirstMatch(cards, RequestName(card), i) && cards[i] == r.card)
      || (r == Undefined && NoMatch(cards, RequestName(card)))
    ensures mtgData.Some? && mtgData.value != [] && !InSetBranch(mtgData.value, card) ==>
      var sets, name := mtgData.value, RequestName(card);
      && r != Undefined
      && (r.Found? ==> exists i :: IsFirstSetWithMatch(sets, name, i) && FindCard(CardsOf(sets[i].1).value, name) == Some(r.card))
      && (r == Null <==> forall i :: 0 <= i < |sets| ==> !HasMatch(sets[i].1, name))
  {
    if mtgData.None? || |mtgData.value| == 0 then Null
    else
      var sets := mtgData.value;
      var name := RequestName(card);
      if InSetBranch(sets, card) then
        match FindCard(SetCards(sets, card), name)
        case Some(c) => Found(c)
        case None => Undefined
      else
        match SearchAllSets(sets, name)
        case Some(c) => Found(c)
        case None => Null
  }

  // ---------------------------------------------------------------------
  // Properties of the lookup.
  // ---------------------------------------------------------------------

  /** A plain line carries no set code, so its lookup is always the search over all sets. */
  lemma PlainLineSearchesAllSets(sets: LoadedSets, line: string)
    ensures GetCardInfo(Some(sets), Plain(line)) ==
      match SearchAllSets(sets, line)
      case Some(c) => Found(c)
      case None => Null
  {
  }

  /**
   * In the set branch, the other loaded sets do not matter: any data with the
   * same file under the requested key gives the same answer.
   */
  lemma SetBranchIgnoresOtherSets(sets: LoadedSets, others: LoadedSets, card: CardRequest)
    requires InSetBranch(sets, card)
    requires LookupSet(others, RequestSetCode(card).value) == LookupSet(sets, RequestSetCode(card).value)
    ensures GetCardInfo(Some(others), card) == GetCardInfo(Some(sets), card)
  {
  }

  /**
   * The set code is an exact key: when no loaded set is keyed by exactly that
   * code, the lookup is the search over all sets, whatever the request says.
   */
  lemma SetCodeIsExactKey(sets: LoadedSets, card: CardRequest)
    requires RequestSetCode(card).Some?
    requires LookupSet(sets, RequestSetCode(card).value).None?
    ensures GetCardInfo(Some(sets), card) ==
      match SearchAllSets(sets, RequestName(card))
      case Some(c) => Found(c)
      case None => Null
  {
  }

  /**
   * The set code is a case-sensitive key: with a set loaded as "lea" only, a
   * request for "LEA" finds nothing in the set branch and falls back to the
   * search over all sets, which finds the card in another set.
   */
  lemma SetCodeIsCaseSensitive()
    ensures var bolt := Card("Lightning Bolt", None, None, None);
      var lea := SetFile(Some(SetData(Some([]))));
      var m10 := SetFile(Some(SetData(Some([bolt]))));
      var sets := [("lea", lea), ("m10", m10)];
      && GetCardInfo(Some(sets), Named("lightning bolt", Some("lea"))) == Undefined
      && GetCardInfo(Some(sets), Named("lightning bolt", Some("LEA"))) == Found(bolt)
  {
    assert ToLowerCase("Lightning Bolt") == "lightning bolt";
    assert ToLowerCase("lightning bolt") == "lightning bolt";
  }

  // ---------------------------------------------------------------------
  // The rows of the results list.
  // ---------------------------------------------------------------------

  /** One rendered row: its key, the card name, the set code label and the lookup result. */
  datatype Row = Row(key: nat, name: string, setLabel: Option<string>, info: CardInfo)

  /** `setCode && ... setCode.toUpperCase()`: the label shows the code upper-cased. */
  function SetLabel(card: CardRequest): (shown: Option<string>)
    ensures shown.Some? <==> RequestSetCode(card).Some? && RequestSetCode(card).value != ""
    ensures shown.Some? ==>
      |shown.value| == |RequestSetCode(card).value| && forall i :: 0 <= i < |shown.value| ==> !('a' <= shown.value[i] <= 'z')
    ensures shown.Some? ==> shown.value == ToUpperCase(RequestSetCode(card).value)
  {
    var code := RequestSetCode(card);
    if code.Some? && code.value != "" then Some(ToUpperCase(code.value)) else None
  }

  /**
   * The component: nothing for a missing or empty list; otherwise one row per
   * requested card, in input order, each with that card's lookup result.
   */
  function ResultRows(cards: Option<seq<CardRequest>>, mtgData: Option<LoadedSets>): (rows: Option<seq<Row>>)
    ensures rows.None? <==> cards.None? || cards.value == []
    ensures rows.Some? ==>
      && |rows.value| == |cards.value|
      && forall i :: 0 <= i < |rows.value| ==>
        rows.value[i] == Row(i, RequestName(cards.value[i]), SetLabel(cards.value[i]), GetCardInfo(mtgData, cards.value[i]))
  {
    if cards.None? || |cards.value| == 0 then None
    else
      var cs := cards.value;
      Some(seq(|cs|, i requires 0 <= i < |cs| => Row(i, RequestName(cs[i]), SetLabel(cs[i]), GetCardInfo(mtgData, cs[i]))))
  }
}
