/** The response classifier shared by the Express route and the Netlify
    function: it turns the page returned by the benefit site into exactly one
    tagged outcome, trying the rules in a fixed order and stopping at the
    first that applies.

    The HTML parser and its CSS selector engine are not modelled. A
    `Document` holds, as plain strings, what the selectors give the handlers. */
module Classifier {
  import opened Wrappers
  import opened Text

  /** One `.dado-item`: the `.text()` of its `.dado-label` and of its
      `.dado-valor`, untrimmed. */
  datatype DataItem = DataItem(labelText: string, valueText: string)

  /** One `.beneficio-card`: the `.text()` of its `.beneficio-header h3`,
      whether it holds a `.badge-expirado`, the `.text()` of its
      `.beneficio-origem`, and its `.dado-item`s in document order. */
  datatype Card = Card(header: string, hasBadge: bool, origin: string, items: seq<DataItem>)

  /** What the selectors return on the parsed page: the text of every
      `.br-message.danger` and of every `.br-message.success` element, the
      cards, and every `.dado-item` of the whole page, each in document order. */
  datatype Document = Document(
    dangerBanners: seq<string>,
    successBanners: seq<string>,
    cards: seq<Card>,
    pageItems: seq<DataItem>)

  /** One entry of `beneficios`: a card, or the single record of the
      page-wide fallback, which carries nothing but its details. */
  datatype BenefitRecord =
    | CardRecord(title: string, isExpired: bool, origin: string, details: map<string, string>)
    | DetailsRecord(details: map<string, string>)

  /** The classified reply; `status` names the tag in the JSON sent back. */
  datatype Outcome =
    | NotFound(message: string)
    | Invalid(message: string)
    | UpstreamError(message: string)
    | Success(successMessage: Option<string>, beneficios: seq<BenefitRecord>)
    | Unknown(message: string, html: string)
  {
    function Status(): string {
      match this
      case NotFound(_) => "not_found"
      case Invalid(_) => "invalid"
      case UpstreamError(_) => "error"
      case Success(_, _) => "success"
      case Unknown(_, _) => "unknown"
    }
  }

  const NotFoundMarker: string := "CPF não encontrado"
  const InvalidMarker: string := "inválido"
  const NotFoundMessage: string := "CPF não encontrado na base de dados do Gás do Povo."
  const InvalidMessage: string := "CPF inválido."
  const UnknownMessage: string := "Não foi possível interpretar a resposta do servidor."

  /** cheerio's `.text()` on a selection: the texts of all matches, concatenated. */
  function JoinTexts(parts: seq<string>): (r: string)
    ensures parts == [] ==> r == []
  {
    if parts == [] then [] else parts[0] + JoinTexts(parts[1..])
  }

  /** The trimmed danger-banner text the cascade inspects first. */
  function DangerText(doc: Document): string {
    Trim(JoinTexts(doc.dangerBanners))
  }

  /** The trimmed success-banner text. */
  function SuccessText(doc: Document): string {
    Trim(JoinTexts(doc.successBanners))
  }

  // ---------------------------------------------------------------------
  // Details: label -> value
  // ---------------------------------------------------------------------

  /** What one `.dado-item` contributes: its label trimmed with its first
      `:` then removed, and its value trimmed. */
  datatype Entry = Entry(key: string, value: string)

  function EntryOf(item: DataItem): Entry {
    Entry(RemoveFirstColon(Trim(item.labelText)), Trim(item.valueText))
  }

  /** The one key an assignment to a fresh object literal does not store:
      `details["__proto__"] = value` reaches the `Object.prototype.__proto__`
      setter, which ignores a string. */
  const ProtoKey: string := "__proto__"

  /** An entry is stored when both its key and its value are non-empty, and
      its key is not `__proto__`. */
  predicate Stored(e: Entry) {
    e.key != [] && e.value != [] && e.key != ProtoKey
  }

  /** The entries of `items`, one per item, in document order. */
  function Entries(items: seq<DataItem>): (es: seq<Entry>)
    ensures |es| == |items|
    ensures forall i :: 0 <= i < |items| ==> es[i] == EntryOf(items[i])
    decreases |items|
  {
    if items == [] then []
    else Entries(items[..|items| - 1]) + [EntryOf(items[|items| - 1])]
  }

  /** The dictionary after setting `details[key] = value` for each stored
      entry in order: a later entry with the same key overwrites an earlier
      one, no key and no value in it is ever empty, and `__proto__` is never
      a key. */
  function Store(es: seq<Entry>): (m: map<string, string>)
    ensures forall k :: k in m ==> k != [] && m[k] != [] && k != ProtoKey
    decreases |es|
  {
    if es == [] then map[]
    else
      var m := Store(es[..|es| - 1]);
      var e := es[|es| - 1];
      if Stored(e) then m[e.key := e.value] else m
  }

  /** The details dictionary of a card, or of the whole page. */
  function DetailsOf(items: seq<DataItem>): map<string, string> {
    Store(Entries(items))
  }

  /** A key is present exactly when some stored entry carries it. */
  lemma {:induction false} StoreKeys(es: seq<Entry>, k: string)
    ensures k in Store(es) <==> exists i :: 0 <= i < |es| && Stored(es[i]) && es[i].key == k
    decreases |es|
  {
    if es != [] {
      var n := |es| - 1;
      StoreKeys(es[..n], k);
      if k in Store(es[..n]) {
        var i :| 0 <= i < n && Stored(es[..n][i]) && es[..n][i].key == k;
        assert es[i] == es[..n][i];
      }
      if exists i :: 0 <= i < |es| && Stored(es[i]) && es[i].key == k {
        var i :| 0 <= i < |es| && Stored(es[i]) && es[i].key == k;
        if i < n {
          assert es[..n][i] == es[i];
        }
      }
    }
  }

  /** Last write wins: the value stored under a key is that of the last
      stored entry carrying the key. */
  lemma {:induction false} StoreLastWriteWins(es: seq<Entry>, i: nat)
    requires i < |es| && Stored(es[i])
    requires forall j :: i < j < |es| ==> !(Stored(es[j]) && es[j].key == es[i].key)
    ensures es[i].key in Store(es) && Store(es)[es[i].key] == es[i].value
    decreases |es|
  {
    var n := |es| - 1;
    if i < n {
      var prefix := es[..n];
      assert prefix[i] == es[i];
      forall j | i < j < |prefix|
        ensures !(Stored(prefix[j]) && prefix[j].key == prefix[i].key)
      {
        assert prefix[j] == es[j];
      }
      StoreLastWriteWins(prefix, i);
    }
  }

  /** A label is in the details exactly when some item has that label
      (trimmed, first `:` removed) together with a non-empty trimmed value,
      the label being neither empty nor `__proto__`. */
  lemma DetailsKeys(items: seq<DataItem>, k: string)
    ensures k in DetailsOf(items) <==>
      exists i :: 0 <= i < |items| && Stored(EntryOf(items[i])) && EntryOf(items[i]).key == k
  {
    StoreKeys(Entries(items), k);
  }

  /** A repeated label keeps the value of its last stored item. */
  lemma DetailsLastWriteWins(items: seq<DataItem>, i: nat)
    requires i < |items| && Stored(EntryOf(items[i]))
    requires forall j :: i < j < |items| ==>
      !(Stored(EntryOf(items[j])) && EntryOf(items[j]).key == EntryOf(items[i]).key)
    ensures EntryOf(items[i]).key in DetailsOf(items)
    ensures DetailsOf(items)[EntryOf(items[i]).key] == EntryOf(items[i]).value
  {
    StoreLastWriteWins(Entries(items), i);
  }

  /** A page whose only data item is labelled `__proto__:` yields no
      details, so with no banner and no card it is classified `unknown`. */
  lemma ProtoLabelOnlyIsUnknown(html: string)
    ensures var doc := Document([], [], [], [DataItem("__proto__:", "x")]);
      DetailsOf(doc.pageItems) == map[] && Classify(doc, html) == Unknown(UnknownMessage, html)
  {
    var tag := "__proto__:";
    TrimUnpadded(tag);
    TrimUnpadded("x");
    assert tag[..|tag| - 1] == ProtoKey;
    RemoveTrailingColon(tag);
    var items := [DataItem(tag, "x")];
    assert !Stored(EntryOf(items[0]));
    assert Entries(items) == [EntryOf(items[0])];
  }

  /** The `.dado-item` loop of the route: visit the items in order and set `details[label]`
      whenever both label and value are non-empty. */
  method BuildDetails(items: seq<DataItem>) returns (details: map<string, string>)
    ensures details == DetailsOf(items)
  {
    details := map[];
    for j := 0 to |items|
      invariant details == DetailsOf(items[..j])
    {
      DetailsOfStep(items, j);
      var entry := EntryOf(items[j]);
      if entry.key != [] && entry.value != [] {
        // the assignment on the object literal: `__proto__` is not stored
        if entry.key != ProtoKey {
          details := details[entry.key := entry.value];
        }
      }
    }
    assert items[..|items|] == items;
  }

  /** One more item either sets its entry or leaves the details unchanged. */
  lemma DetailsOfStep(items: seq<DataItem>, j: nat)
    requires j < |items|
    ensures var e := EntryOf(items[j]);
      DetailsOf(items[..j + 1]) == if Stored(e) then DetailsOf(items[..j])[e.key := e.value] else DetailsOf(items[..j])
  {
    assert items[..j + 1][..j] == items[..j];
    assert Entries(items[..j + 1])[..j] == Entries(items[..j]);
  }

  // ---------------------------------------------------------------------
  // Cards
  // ---------------------------------------------------------------------

  /** The record one card yields: trimmed title and origin, possibly empty. */
  function RecordOf(card: Card): BenefitRecord {
    CardRecord(Trim(card.header), card.hasBadge, Trim(card.origin), DetailsOf(card.items))
  }

  /** `beneficios` after visiting `cards`: one record per card, in card order. */
  function RecordsOf(cards: seq<Card>): (rs: seq<BenefitRecord>)
    ensures |rs| == |cards|
    ensures forall i :: 0 <= i < |cards| ==> rs[i] == RecordOf(cards[i])
    decreases |cards|
  {
    if cards == [] then []
    else RecordsOf(cards[..|cards| - 1]) + [RecordOf(cards[|cards| - 1])]
  }

  /** The route's `.beneficio-card` loop, pushing one record per card. */
  method ExtractBenefits(cards: seq<Card>) returns (beneficios: seq<BenefitRecord>)
    ensures beneficios == RecordsOf(cards)
  {
    beneficios := [];
    for i := 0 to |cards|
      invariant beneficios == RecordsOf(cards[..i])
    {
      assert cards[..i + 1][..i] == cards[..i];
      var card := cards[i];
      var details := BuildDetails(card.items);
      beneficios := beneficios + [CardRecord(Trim(card.header), card.hasBadge, Trim(card.origin), details)];
    }
    assert cards[..|cards|] == cards;
  }

  // ---------------------------------------------------------------------
  // The cascade
  // ---------------------------------------------------------------------

  /** Every record's details are free of empty keys and values. */
  ghost predicate WellFormed(o: Outcome) {
    o.Success? ==> forall i :: 0 <= i < |o.beneficios| ==>
      forall k :: k in o.beneficios[i].details ==>
        k != [] && o.beneficios[i].details[k] != [] && k != ProtoKey
  }

  /** The classification of the page `html`, parsed as `doc`. */
  function Classify(doc: Document, html: string): (o: Outcome)
    ensures WellFormed(o)
    ensures o.Success? ==> o.beneficios != [] || (o.successMessage.Some? && o.successMessage.value != [])
    ensures o.Unknown? ==> o.html == html
  {
    var danger := DangerText(doc);
    if danger != [] && Contains(danger, NotFoundMarker) then NotFound(NotFoundMessage)
    else if danger != [] && Contains(danger, InvalidMarker) then Invalid(InvalidMessage)
    else if danger != [] then UpstreamError(CollapseWs(danger))
    else
      var beneficios := RecordsOf(doc.cards);
      if |beneficios| == 0 then
        var success := SuccessText(doc);
        if success != [] then Success(Some(CollapseWs(success)), [])
        else
          var details := DetailsOf(doc.pageItems);
          if |details| > 0 then Success(None, [DetailsRecord(details)])
          else Unknown(UnknownMessage, html)
      else Success(None, beneficios)
  }

  /** The route's handler body as written: the early returns of the
      danger checks, then the card loop, then the fallbacks. */
  method ClassifyPage(doc: Document, html: string) returns (o: Outcome)
    ensures o == Classify(doc, html)
  {
    var dangerMessage := Trim(JoinTexts(doc.dangerBanners));
    if dangerMessage != [] && Contains(dangerMessage, NotFoundMarker) {
      return NotFound(NotFoundMessage);
    }
    if dangerMessage != [] && Contains(dangerMessage, InvalidMarker) {
      return Invalid(InvalidMessage);
    }
    if dangerMessage != [] {
      return UpstreamError(CollapseWs(dangerMessage));
    }
    var beneficios := ExtractBenefits(doc.cards);
    if |beneficios| == 0 {
      var successMessage := Trim(JoinTexts(doc.successBanners));
      if successMessage != [] {
        return Success(Some(CollapseWs(successMessage)), []);
      }
      var details := BuildDetails(doc.pageItems);
      if |details| > 0 {
        return Success(None, [DetailsRecord(details)]);
      }
      return Unknown(UnknownMessage, html);
    }
    return Success(None, beneficios);
  }

  // ---------------------------------------------------------------------
  // Properties of the cascade
  // ---------------------------------------------------------------------

  /** The not-found phrase wins over everything, `inválido` included, and
      yields the fixed message rather than the scraped text. */
  lemma NotFoundFirst(doc: Document, html: string)
    requires Contains(DangerText(doc), NotFoundMarker)
    ensures Classify(doc, html) == NotFound(NotFoundMessage)
  {
  }

  /** `inválido` without the not-found phrase yields the fixed invalid message. */
  lemma InvalidSecond(doc: Document, html: string)
    requires !Contains(DangerText(doc), NotFoundMarker)
    requires Contains(DangerText(doc), InvalidMarker)
    ensures Classify(doc, html) == Invalid(InvalidMessage)
  {
  }

  /** Any other danger text is passed through as an error whose message is
      non-empty, has no leading, trailing or doubled whitespace, uses only
      plain spaces between words, and keeps every word of the banner in order. */
  lemma OtherDangerIsError(doc: Document, html: string)
    requires DangerText(doc) != []
    requires !Contains(DangerText(doc), NotFoundMarker)
    requires !Contains(DangerText(doc), InvalidMarker)
    ensures Classify(doc, html).UpstreamError?
    ensures var m := Classify(doc, html).message;
      && m != []
      && !IsWs(m[0]) && !IsWs(m[|m| - 1])
      && (forall i :: 0 <= i < |m| && IsWs(m[i]) ==> m[i] == ' ')
      && (forall i :: 0 <= i < |m| - 1 ==> !(IsWs(m[i]) && IsWs(m[i + 1])))
      && Words(m) == Words(JoinTexts(doc.dangerBanners))
  {
    var raw := JoinTexts(doc.dangerBanners);
    var danger := DangerText(doc);
    CollapseWsKeepsLastChar(danger);
    CollapseWsKeepsWords(danger);
    TrimKeepsWords(raw);
  }

  /** Trimming drops only whitespace, so it keeps the words. */
  lemma TrimKeepsWords(s: string)
    ensures Words(Trim(s)) == Words(s)
  {
    var a := LeadingWs(s);
    var r := Trim(s);
    TrimIsInfix(s);
    assert s == s[..a] + r + s[a + |r|..];
    WordsOfWsPrefix(s[..a], r + s[a + |r|..]);
    assert s[..a] + (r + s[a + |r|..]) == s;
    WordsOfWsSuffix(r, s[a + |r|..]);
  }

  lemma {:induction false} WordsOfWsPrefix(w: string, s: string)
    requires AllWs(w)
    ensures Words(w + s) == Words(s)
    decreases |w|
  {
    if w != [] {
      assert IsWs(w[0]);
      assert (w + s)[0] == w[0];
      assert (w + s)[1..] == w[1..] + s;
      WordsOfWsPrefix(w[1..], s);
    } else {
      assert w + s == s;
    }
  }

  lemma {:induction false} WordsOfWsSuffix(s: string, w: string)
    requires AllWs(w)
    ensures Words(s + w) == Words(s)
    decreases |s|
  {
    if s == [] {
      WordsOfWsPrefix(w, []);
      assert s + w == w + [];
    } else {
      assert (s + w)[0] == s[0];
      assert (s + w)[1..] == s[1..] + w;
      WordsOfWsSuffix(s[1..], w);
      if |s| == 1 && w != [] {
        assert (s + w)[1] == w[0];
      }
    }
  }

  /** The first three rules fire exactly when there is danger text: such text
      rules out `success` and `unknown` even when cards are on the page. */
  lemma DangerPreempts(doc: Document, html: string)
    ensures var o := Classify(doc, html);
      (o.NotFound? || o.Invalid? || o.UpstreamError?) <==> DangerText(doc) != []
  {
  }

  /** Without danger text, N >= 1 cards give `success` with exactly N records
      in card order, each expired exactly when its card has the badge. */
  lemma CardsGiveRecords(doc: Document, html: string)
    requires DangerText(doc) == [] && |doc.cards| >= 1
    ensures var o := Classify(doc, html);
      && o == Success(None, o.beneficios)
      && |o.beneficios| == |doc.cards|
      && forall i :: 0 <= i < |doc.cards| ==>
           && o.beneficios[i].CardRecord?
           && o.beneficios[i].title == Trim(doc.cards[i].header)
           && (o.beneficios[i].isExpired <==> doc.cards[i].hasBadge)
           && o.beneficios[i].origin == Trim(doc.cards[i].origin)
           && o.beneficios[i].details == DetailsOf(doc.cards[i].items)
  {
  }

  /** With no danger text and no cards, a success banner gives `success`
      with the collapsed banner text and no records; failing that, page-wide
      details give one record holding only them; failing that, `unknown`
      carrying the page verbatim. */
  lemma FallbackOrder(doc: Document, html: string)
    requires DangerText(doc) == [] && doc.cards == []
    ensures var o := Classify(doc, html);
      if SuccessText(doc) != [] then
        o == Success(Some(CollapseWs(SuccessText(doc))), [])
      else if DetailsOf(doc.pageItems) != map[] then
        o == Success(None, [DetailsRecord(DetailsOf(doc.pageItems))])
      else
        o == Unknown(UnknownMessage, html)
  {
  }

  /** `unknown` is the last resort: it is produced exactly when no rule
      applies, and the page goes back untouched. */
  lemma UnknownIffNothingMatched(doc: Document, html: string)
    ensures Classify(doc, html).Unknown? <==>
      DangerText(doc) == [] && doc.cards == [] && SuccessText(doc) == [] && DetailsOf(doc.pageItems) == map[]
    ensures Classify(doc, html).Unknown? ==> Classify(doc, html) == Unknown(UnknownMessage, html)
  {
  }
}
