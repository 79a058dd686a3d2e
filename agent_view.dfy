/**
 * The agent's view of one auction house: the items it lists and the ids of
 * the items on which this agent holds an accepted bid. It is filled from
 * the house's `ITEM` lines and kept current by the messages the house
 * sends, each one decoded by the line codec.
 */
module AgentView {
  import opened Results
  import opened Int32
  import opened JavaText
  import opened Message

  /** What the agent knows of one item. */
  datatype ItemInfo = ItemInfo(auctionId: string, itemId: string, description: string, minBid: int32, currBid: int32)

  /** The runtime exceptions a malformed line raises: an index out of bounds, or a NumberFormatException. */
  datatype Failure = IndexOutOfBounds | NumberFormat

  /** A request to the bank, sent when this agent wins an item. */
  datatype Transfer = Transfer(fromAgentId: int32, toAuctionHouseId: int32, amount: int32)

  /*
   * Reading an item from its tokens.
   */

  /** The tokens between the id and the two bids: the words of the quoted description. */
  function DescriptionWords(parts: seq<string>): (ws: seq<string>)
    ensures |parts| >= 4 ==> |ws| == |parts| - 4 && forall k | 0 <= k < |ws| :: ws[k] == parts[k + 2]
    ensures |parts| < 4 ==> ws == []
  {
    if |parts| >= 4 then parts[2..|parts| - 2] else []
  }

  /** The description as `buildDescription` rebuilds it: its words joined by single spaces. */
  function Rebuilt(parts: seq<string>): string {
    Join(DescriptionWords(parts))
  }

  /**
   * The description rebuilt from its words with single spaces, then with
   * its first and last character (the quotes) removed; fewer than two
   * characters is a StringIndexOutOfBoundsException.
   */
  function StrippedDescription(parts: seq<string>): Result<string, Failure> {
    var d := Rebuilt(parts);
    if |d| < 2 then Err(IndexOutOfBounds) else Ok(d[1..|d| - 1])
  }

  /**
   * `parseItem` on the tokens of an `ITEM id "desc" min curr` line: the id
   * is token 1, the bids are the last two tokens, the description is what
   * lies between, stripped of its quotes.
   */
  function ParsedItem(auctionId: string, parts: seq<string>): (r: Result<ItemInfo, Failure>)
    ensures r.Ok? ==> |parts| >= 5 && r.value.auctionId == auctionId && r.value.itemId == parts[1]
    ensures r.Ok? ==> ParseInt(parts[|parts| - 2]) == Some(r.value.minBid) && ParseInt(parts[|parts| - 1]) == Some(r.value.currBid)
    ensures r.Ok? ==> |Rebuilt(parts)| >= 2 && r.value.description == Rebuilt(parts)[1..|Rebuilt(parts)| - 1]
    ensures |parts| < 2 ==> r == Err(IndexOutOfBounds)
    ensures |parts| >= 2 && |Rebuilt(parts)| < 2 ==> r == Err(IndexOutOfBounds)
    ensures |parts| >= 2 && |Rebuilt(parts)| >= 2 && (ParseInt(parts[|parts| - 2]).None? || ParseInt(parts[|parts| - 1]).None?) ==> r == Err(NumberFormat)
    ensures |parts| >= 2 && |Rebuilt(parts)| >= 2 && ParseInt(parts[|parts| - 2]).Some? && ParseInt(parts[|parts| - 1]).Some? ==> r.Ok?
  {
    if |parts| < 2 then Err(IndexOutOfBounds)
    else
      match StrippedDescription(parts)
      case Err(e) => Err(e)
      case Ok(d) =>
        match ParseInt(parts[|parts| - 2])
        case None => Err(NumberFormat)
        case Some(m) =>
          match ParseInt(parts[|parts| - 1])
          case None => Err(NumberFormat)
          case Some(c) => Ok(ItemInfo(auctionId, parts[1], d, m, c))
  }

  /** A line without description tokens cannot be read: there are no quotes to strip. */
  lemma MissingDescriptionFails(auctionId: string, parts: seq<string>)
    requires |parts| <= 4
    ensures ParsedItem(auctionId, parts) == Err(IndexOutOfBounds)
  {
  }

  /** The tokens that a quoted description `"w1 ... wn"` splits into. */
  function Quoted(ws: seq<string>): (qs: seq<string>)
    ensures |qs| == if ws == [] then 1 else |ws|
  {
    if ws == [] then ["\"\""]
    else if |ws| == 1 then ["\"" + ws[0] + "\""]
    else ["\"" + ws[0]] + ws[1..|ws| - 1] + [ws[|ws| - 1] + "\""]
  }

  /** Quoting the words and joining them is joining the words and quoting the result. */
  lemma JoinQuoted(ws: seq<string>)
    ensures Join(Quoted(ws)) == "\"" + Join(ws) + "\""
  {
    if |ws| >= 2 {
      var first := "\"" + ws[0];
      var mid := ws[1..|ws| - 1];
      var last := ws[|ws| - 1];
      var tail := if mid == [] then last else Join(mid) + " " + last;
      assert Join(ws[1..]) == tail by {
        assert ws[1..] == mid + [last];
        if mid != [] {
          JoinAppend(mid, [last]);
        }
      }
      assert Join(mid + [last + "\""]) == tail + "\"" by {
        if mid != [] {
          JoinAppend(mid, [last + "\""]);
        }
      }
      assert Join(Quoted(ws)) == first + " " + (tail + "\"") by {
        assert Quoted(ws) == [first] + (mid + [last + "\""]);
        JoinAppend([first], mid + [last + "\""]);
      }
    }
  }

  lemma QuotedAreTokens(ws: seq<string>)
    requires AllTokens(ws)
    ensures AllTokens(Quoted(ws))
  {
    if |ws| >= 2 {
      var qs := Quoted(ws);
      forall k | 0 <= k < |qs|
        ensures IsToken(qs[k])
      {
        if 0 < k < |qs| - 1 {
          assert qs[k] == ws[k];
        }
      }
    }
  }

  /** A verb the codec carries intact: a token whose first and last characters survive `trim`. */
  predicate Word(s: string) {
    IsToken(s) && !IsBlank(s[0]) && !IsBlank(s[|s| - 1])
  }

  /** Every verb the agent acts on, and `ITEM`, is a word. */
  lemma VerbsAreWords()
    ensures Word("ACCEPTED") && Word("OUTBID") && Word("WINNER")
    ensures Word("ITEM_UPDATED") && Word("ITEM_SOLD") && Word("ITEM")
  {
  }

  /** The line an auction house writes for an item: `encode(verb, id, "\"" + desc + "\"", min, curr)`. */
  function ItemLine(verb: string, id: string, description: string, minBid: int32, currBid: int32): string {
    Encode(verb, [id, "\"" + description + "\"", Decimal(minBid), Decimal(currBid)])
  }

  /** What `String.valueOf` writes is a token whose last character survives `trim`. */
  lemma DecimalIsToken(n: int32)
    ensures IsToken(Decimal(n)) && !IsBlank(Decimal(n)[|Decimal(n)| - 1])
  {
    ParseDecimal(n);
    ParsedIsToken(Decimal(n));
  }

  /** The tokens of an item line, written out. */
  function ItemTokens(verb: string, id: string, ws: seq<string>, minBid: int32, currBid: int32): seq<string> {
    [verb] + ([id] + (Quoted(ws) + [Decimal(minBid), Decimal(currBid)]))
  }

  /** An item line is its tokens joined by single spaces. */
  lemma ItemLineJoin(verb: string, id: string, ws: seq<string>, minBid: int32, currBid: int32)
    ensures ItemLine(verb, id, Join(ws), minBid, currBid) == Join(ItemTokens(verb, id, ws, minBid, currBid))
  {
    var m := Decimal(minBid);
    var c := Decimal(currBid);
    var q := Quoted(ws);
    var qs := "\"" + Join(ws) + "\"";
    JoinQuoted(ws);
    assert Join([m, c]) == m + " " + c by {
      assert [m, c][1..] == [c];
    }
    JoinAppend(q, [m, c]);
    JoinAppend([id], q + [m, c]);
    JoinAppend([verb], [id] + (q + [m, c]));
    var args := [id, qs, m, c];
    assert Join(args) == id + " " + (qs + " " + (m + " " + c)) by {
      assert args[1..] == [qs, m, c];
      assert args[1..][1..] == [m, c];
    }
  }

  /** Every token of a well-formed item line is a token. */
  lemma ItemTokensAreTokens(verb: string, id: string, ws: seq<string>, minBid: int32, currBid: int32)
    requires IsToken(verb) && IsToken(id) && AllTokens(ws)
    ensures AllTokens(ItemTokens(verb, id, ws, minBid, currBid))
  {
    var ts := ItemTokens(verb, id, ws, minBid, currBid);
    var q := Quoted(ws);
    QuotedAreTokens(ws);
    DecimalIsToken(minBid);
    DecimalIsToken(currBid);
    forall k | 0 <= k < |ts|
      ensures IsToken(ts[k])
    {
      if 2 <= k < |ts| - 2 {
        assert ts[k] == q[k - 2];
      }
    }
  }

  /** The tokens such a line decodes to, when the description is made of words separated by single spaces. */
  lemma ItemLineTokens(verb: string, id: string, ws: seq<string>, minBid: int32, currBid: int32)
    requires Word(verb) && IsToken(id) && AllTokens(ws)
    ensures Decode(ItemLine(verb, id, Join(ws), minBid, currBid)) == ItemTokens(verb, id, ws, minBid, currBid)
  {
    var ts := ItemTokens(verb, id, ws, minBid, currBid);
    ItemLineJoin(verb, id, ws, minBid, currBid);
    ItemTokensAreTokens(verb, id, ws, minBid, currBid);
    DecimalIsToken(currBid);
    assert ts[|ts| - 1] == Decimal(currBid);
    assert Framed(ts);
    DecodeJoin(ts);
  }

  /** What `parseItem` reads from a well-formed `ITEM` line is exactly what was written. */
  lemma ItemRoundTrip(auctionId: string, id: string, ws: seq<string>, minBid: int32, currBid: int32)
    requires IsToken(id) && AllTokens(ws)
    ensures ParsedItem(auctionId, Decode(ItemLine("ITEM", id, Join(ws), minBid, currBid)))
      == Ok(ItemInfo(auctionId, id, Join(ws), minBid, currBid))
  {
    VerbsAreWords();
    ItemLineTokens("ITEM", id, ws, minBid, currBid);
    ReadItemTokens(auctionId, "ITEM", id, ws, minBid, currBid);
  }

  lemma ReadItemTokens(auctionId: string, verb: string, id: string, ws: seq<string>, minBid: int32, currBid: int32)
    ensures ParsedItem(auctionId, ItemTokens(verb, id, ws, minBid, currBid))
      == Ok(ItemInfo(auctionId, id, Join(ws), minBid, currBid))
  {
    var ts := ItemTokens(verb, id, ws, minBid, currBid);
    assert DescriptionWords(ts) == Quoted(ws);
    JoinQuoted(ws);
    ParseDecimal(minBid);
    ParseDecimal(currBid);
  }

  /*
   * The item list.
   */

  /** Index of the first item with that id, or the length of the list when there is none. */
  function FirstIndex(items: seq<ItemInfo>, itemId: string): (k: nat)
    ensures k <= |items|
    ensures forall j | 0 <= j < k :: items[j].itemId != itemId
    ensures k < |items| ==> items[k].itemId == itemId
  {
    if items == [] || items[0].itemId == itemId then 0 else 1 + FirstIndex(items[1..], itemId)
  }

  /** The first index is the only index that can satisfy the two conditions that characterize it. */
  lemma FirstIndexUnique(items: seq<ItemInfo>, itemId: string, k: nat)
    requires k <= |items| && (forall j | 0 <= j < k :: items[j].itemId != itemId)
    requires k < |items| ==> items[k].itemId == itemId
    ensures FirstIndex(items, itemId) == k
  {
  }

  /**
   * The `ITEM_UPDATED` update: the first item with the id of `info` gets
   * its description and bids; when there is none, `info` is appended.
   */
  function Upsert(items: seq<ItemInfo>, info: ItemInfo): (r: seq<ItemInfo>)
    ensures |r| == if FirstIndex(items, info.itemId) < |items| then |items| else |items| + 1
    ensures forall j | 0 <= j < |items| && j != FirstIndex(items, info.itemId) :: r[j] == items[j]
    ensures FirstIndex(items, info.itemId) < |r| && r[FirstIndex(items, info.itemId)].itemId == info.itemId
    ensures r[FirstIndex(items, info.itemId)].description == info.description
    ensures FirstIndex(items, info.itemId) < |items| ==> r[FirstIndex(items, info.itemId)].auctionId == items[FirstIndex(items, info.itemId)].auctionId
    ensures FirstIndex(items, info.itemId) == |items| ==> r[|items|] == info
  {
    var k := FirstIndex(items, info.itemId);
    if k < |items| then items[k := items[k].(description := info.description, minBid := info.minBid, currBid := info.currBid)]
    else items + [info]
  }

  /**
   * After an update the first item with that id carries the new
   * description and bids; every other position is untouched; the list
   * grows only when the id was new.
   */
  lemma UpsertSpec(items: seq<ItemInfo>, info: ItemInfo)
    ensures var r := Upsert(items, info); var k := FirstIndex(r, info.itemId);
      k < |r| && r[k].description == info.description && r[k].minBid == info.minBid && r[k].currBid == info.currBid
      && k == FirstIndex(items, info.itemId)
      && (forall j | 0 <= j < |items| && j != k :: r[j] == items[j])
      && |r| == (if k < |items| then |items| else |items| + 1)
      && (k < |items| ==> r[k] == items[k].(description := info.description, minBid := info.minBid, currBid := info.currBid))
      && (k == |items| ==> r == items + [info])
  {
    var k := FirstIndex(items, info.itemId);
    var r := Upsert(items, info);
    FirstIndexUnique(r, info.itemId, k);
  }

  /** Applying the same update twice is applying it once. */
  lemma UpsertIdempotent(items: seq<ItemInfo>, info: ItemInfo)
    ensures Upsert(Upsert(items, info), info) == Upsert(items, info)
  {
    var k := FirstIndex(items, info.itemId);
    var r := Upsert(items, info);
    FirstIndexUnique(r, info.itemId, k);
  }

  /** `items.removeIf(item -> item.itemId.equals(itemId))`. */
  function WithoutId(items: seq<ItemInfo>, itemId: string): (r: seq<ItemInfo>)
    ensures |r| <= |items|
    ensures forall x :: x in r <==> x in items && x.itemId != itemId
    ensures (forall j | 0 <= j < |items| :: items[j].itemId != itemId) ==> r == items
  {
    if items == [] then []
    else
      var front := WithoutId(items[..|items| - 1], itemId);
      var last := items[|items| - 1];
      assert items == items[..|items| - 1] + [last];
      if last.itemId == itemId then front else front + [last]
  }

  /** Removing an id twice is removing it once, and removals of different ids commute. */
  lemma {:induction false} WithoutIdCommutes(items: seq<ItemInfo>, a: string, b: string)
    ensures WithoutId(WithoutId(items, a), b) == WithoutId(WithoutId(items, b), a)
  {
    if items != [] {
      var front := items[..|items| - 1];
      WithoutIdCommutes(front, a, b);
      var last := items[|items| - 1];
      WithoutIdSnoc(WithoutId(front, a), last, b);
      WithoutIdSnoc(WithoutId(front, b), last, a);
    }
  }

  lemma WithoutIdSnoc(items: seq<ItemInfo>, x: ItemInfo, itemId: string)
    ensures WithoutId(items + [x], itemId) == WithoutId(items, itemId) + (if x.itemId == itemId then [] else [x])
  {
    assert (items + [x])[..|items + [x]| - 1] == items;
  }

  /** Removal is a filter: every entry for `itemId` goes, every other entry keeps its multiplicity. */
  lemma {:induction false} WithoutIdCounts(items: seq<ItemInfo>, itemId: string)
    ensures forall x :: multiset(WithoutId(items, itemId))[x] == if x.itemId == itemId then 0 else multiset(items)[x]
  {
    if items != [] {
      var front := items[..|items| - 1];
      var last := items[|items| - 1];
      assert items == front + [last];
      WithoutIdCounts(front, itemId);
      WithoutIdSnoc(front, last, itemId);
    }
  }

  /** Removal distributes over concatenation and keeps the order of the survivors. */
  lemma {:induction false} WithoutIdAppend(a: seq<ItemInfo>, b: seq<ItemInfo>, itemId: string)
    ensures WithoutId(a + b, itemId) == WithoutId(a, itemId) + WithoutId(b, itemId)
  {
    if b == [] {
      assert a + b == a;
    } else {
      var front := b[..|b| - 1];
      var last := b[|b| - 1];
      assert b == front + [last];
      assert a + b == (a + front) + [last];
      WithoutIdAppend(a, front, itemId);
      WithoutIdSnoc(a + front, last, itemId);
      WithoutIdSnoc(front, last, itemId);
    }
  }

  /*
   * Messages from the auction house.
   */

  /** The state `handleMessage` changes. */
  datatype View = View(items: seq<ItemInfo>, activeBids: set<string>)

  /** The view after one message, and what came of it: nothing, a transfer request, or an exception. */
  datatype Step = Step(view: View, outcome: Result<Option<Transfer>, Failure>)

  /** The verbs `handleMessage` acts on; every other verb, `REJECTED` among them, is only shown. */
  predicate Known(verb: string) {
    verb == "ACCEPTED" || verb == "OUTBID" || verb == "WINNER" || verb == "ITEM_UPDATED" || verb == "ITEM_SOLD"
  }

  /**
   * `handleMessage` on the decoded tokens of a message (never empty, as
   * `decode` guarantees). Every exception is raised before anything
   * changes; only `ITEM_UPDATED` and `ITEM_SOLD` touch the items; only
   * `WINNER` asks for a transfer, always from this agent.
   */
  function HandleParts(auctionId: string, agentId: int32, v: View, parts: seq<string>): (r: Step)
    requires |parts| >= 1
    ensures r.outcome.Err? ==> r.view == v
    ensures !Known(parts[0]) ==> r == Step(v, Ok(None))
    ensures parts[0] == "ITEM_UPDATED" && |parts| < 5 ==> r == Step(v, Ok(None))
    ensures r.view.items != v.items ==> parts[0] == "ITEM_UPDATED" || parts[0] == "ITEM_SOLD"
    ensures r.view.activeBids != v.activeBids ==> parts[0] != "ITEM_UPDATED" && Known(parts[0])
    ensures r.outcome.Ok? && r.outcome.value.Some? ==>
      parts[0] == "WINNER" && r.outcome.value.value.fromAgentId == agentId
      && ParseInt(auctionId) == Some(r.outcome.value.value.toAuctionHouseId)
  {
    var verb := parts[0];
    if verb == "ACCEPTED" then
      if |parts| < 2 then Step(v, Err(IndexOutOfBounds))
      else Step(v.(activeBids := v.activeBids + {parts[1]}), Ok(None))
    else if verb == "OUTBID" then
      if |parts| < 2 then Step(v, Err(IndexOutOfBounds))
      else Step(v.(activeBids := v.activeBids - {parts[1]}), Ok(None))
    else if verb == "WINNER" then
      if |parts| < 2 then Step(v, Err(IndexOutOfBounds))
      else
        match ParseInt(parts[1])
        case None => Step(v, Err(NumberFormat))
        case Some(amount) =>
          match ParseInt(auctionId)
          case None => Step(v, Err(NumberFormat))
          case Some(house) =>
            if |parts| < 3 then Step(v, Err(IndexOutOfBounds))
            else Step(v.(activeBids := v.activeBids - {parts[2]}), Ok(Some(Transfer(agentId, house, amount))))
    else if verb == "ITEM_UPDATED" then
      if |parts| < 5 then Step(v, Ok(None))
      else
        match ParsedItem(auctionId, parts)
        case Err(e) => Step(v, Err(e))
        case Ok(info) => Step(v.(items := Upsert(v.items, info)), Ok(None))
    else if verb == "ITEM_SOLD" then
      if |parts| < 2 then Step(v, Err(IndexOutOfBounds))
      else Step(View(WithoutId(v.items, parts[1]), v.activeBids - {parts[1]}), Ok(None))
    else
      Step(v, Ok(None))
  }

  /** `handleMessage(message)`, as far as the item list and the active bids are concerned. */
  function Handle(auctionId: string, agentId: int32, v: View, message: string): (r: Step)
    ensures Trim(message) == "" ==> r == Step(v, Ok(None))
    ensures r.outcome.Err? ==> r.view == v
    ensures r.outcome.Ok? && r.outcome.value.Some? ==>
      r.outcome.value.value.fromAgentId == agentId && ParseInt(auctionId) == Some(r.outcome.value.value.toAuctionHouseId)
  {
    HandleParts(auctionId, agentId, v, Decode(message))
  }

  /** A framed one-argument message decodes to its verb and its argument. */
  lemma OneArgument(verb: string, arg: string)
    requires Word(verb) && IsToken(arg) && !IsBlank(arg[|arg| - 1])
    ensures Decode(Encode(verb, [arg])) == [verb, arg]
  {
    assert Framed([verb] + [arg]);
    EncodeDecode(verb, [arg]);
  }

  /** A framed two-argument message decodes to its verb and its two arguments. */
  lemma TwoArguments(verb: string, a: string, b: string)
    requires Word(verb) && IsToken(a) && IsToken(b) && !IsBlank(b[|b| - 1])
    ensures Decode(Encode(verb, [a, b])) == [verb, a, b]
  {
    assert Framed([verb] + [a, b]);
    EncodeDecode(verb, [a, b]);
  }

  /** `ACCEPTED id` puts the id among the active bids and leaves the items alone. */
  lemma AcceptedAdds(auctionId: string, agentId: int32, v: View, id: string)
    requires IsToken(id) && !IsBlank(id[|id| - 1])
    ensures Handle(auctionId, agentId, v, Encode("ACCEPTED", [id])) == Step(v.(activeBids := v.activeBids + {id}), Ok(None))
  {
    VerbsAreWords();
    OneArgument("ACCEPTED", id);
  }

  /** `OUTBID id` takes the id out of the active bids and leaves the items alone. */
  lemma OutbidRemoves(auctionId: string, agentId: int32, v: View, id: string)
    requires IsToken(id) && !IsBlank(id[|id| - 1])
    ensures Handle(auctionId, agentId, v, Encode("OUTBID", [id])) == Step(v.(activeBids := v.activeBids - {id}), Ok(None))
  {
    VerbsAreWords();
    OneArgument("OUTBID", id);
  }

  /** The life of a bid: accepted, then outbid, leaves the agent with no bid on that item. */
  lemma AcceptedThenOutbid(auctionId: string, agentId: int32, v: View, id: string)
    requires IsToken(id) && !IsBlank(id[|id| - 1])
    ensures id !in Handle(auctionId, agentId, Handle(auctionId, agentId, v, Encode("ACCEPTED", [id])).view, Encode("OUTBID", [id])).view.activeBids
    ensures Handle(auctionId, agentId, Handle(auctionId, agentId, v, Encode("ACCEPTED", [id])).view, Encode("OUTBID", [id])).view
      == v.(activeBids := v.activeBids - {id})
  {
    AcceptedAdds(auctionId, agentId, v, id);
    OutbidRemoves(auctionId, agentId, v.(activeBids := v.activeBids + {id}), id);
    assert v.activeBids + {id} - {id} == v.activeBids - {id};
  }

  /**
   * `WINNER amount id` from a house whose id is a number: the agent asks the
   * bank to move `amount` from itself to the house, and the bid is no longer active.
   */
  lemma WinnerTransfers(auctionId: string, agentId: int32, v: View, amount: int32, id: string)
    requires ParseInt(auctionId).Some? && IsToken(id) && !IsBlank(id[|id| - 1])
    ensures Handle(auctionId, agentId, v, Encode("WINNER", [Decimal(amount), id]))
      == Step(v.(activeBids := v.activeBids - {id}), Ok(Some(Transfer(agentId, ParseInt(auctionId).value, amount))))
  {
    DecimalIsToken(amount);
    VerbsAreWords();
    TwoArguments("WINNER", Decimal(amount), id);
    WinnerParts(auctionId, agentId, v, amount, id);
  }

  lemma WinnerParts(auctionId: string, agentId: int32, v: View, amount: int32, id: string)
    requires ParseInt(auctionId).Some?
    ensures HandleParts(auctionId, agentId, v, ["WINNER", Decimal(amount), id])
      == Step(v.(activeBids := v.activeBids - {id}), Ok(Some(Transfer(agentId, ParseInt(auctionId).value, amount))))
  {
    ParseDecimal(amount);
  }

  /** `ITEM_SOLD id` removes every item with that id, keeps the others, and ends the bid. */
  lemma ItemSoldRemoves(auctionId: string, agentId: int32, v: View, id: string)
    requires IsToken(id) && !IsBlank(id[|id| - 1])
    ensures Handle(auctionId, agentId, v, Encode("ITEM_SOLD", [id])) == Step(View(WithoutId(v.items, id), v.activeBids - {id}), Ok(None))
  {
    VerbsAreWords();
    OneArgument("ITEM_SOLD", id);
    ItemSoldParts(auctionId, agentId, v, id);
  }

  lemma ItemSoldParts(auctionId: string, agentId: int32, v: View, id: string)
    ensures HandleParts(auctionId, agentId, v, ["ITEM_SOLD", id]) == Step(View(WithoutId(v.items, id), v.activeBids - {id}), Ok(None))
  {
  }

  /** A well-formed `ITEM_UPDATED` line updates the first item with its id, or adds the item. */
  lemma ItemUpdatedUpserts(auctionId: string, agentId: int32, v: View, id: string, ws: seq<string>, minBid: int32, currBid: int32)
    requires IsToken(id) && AllTokens(ws)
    ensures Handle(auctionId, agentId, v, ItemLine("ITEM_UPDATED", id, Join(ws), minBid, currBid))
      == Step(v.(items := Upsert(v.items, ItemInfo(auctionId, id, Join(ws), minBid, currBid))), Ok(None))
  {
    var parts := ItemTokens("ITEM_UPDATED", id, ws, minBid, currBid);
    var info := ItemInfo(auctionId, id, Join(ws), minBid, currBid);
    assert Decode(ItemLine("ITEM_UPDATED", id, Join(ws), minBid, currBid)) == parts by {
      VerbsAreWords();
      ItemLineTokens("ITEM_UPDATED", id, ws, minBid, currBid);
    }
    assert parts[0] == "ITEM_UPDATED" && |parts| >= 5;
    ReadItemTokens(auctionId, "ITEM_UPDATED", id, ws, minBid, currBid);
    ItemUpdatedParts(auctionId, agentId, v, parts, info);
  }

  lemma ItemUpdatedParts(auctionId: string, agentId: int32, v: View, parts: seq<string>, info: ItemInfo)
    requires |parts| >= 5 && parts[0] == "ITEM_UPDATED" && ParsedItem(auctionId, parts) == Ok(info)
    ensures HandleParts(auctionId, agentId, v, parts) == Step(v.(items := Upsert(v.items, info)), Ok(None))
  {
  }

  /*
   * Reading a list of items.
   */

  /** `parseItem` applied to each entry of a list. */
  function ReadAll(auctionId: string, itemList: seq<seq<string>>): seq<Result<ItemInfo, Failure>> {
    seq(|itemList|, j requires 0 <= j < |itemList| => ParsedItem(auctionId, itemList[j]))
  }

  /** Index of the first result that is a failure, or the length of the list. */
  function FirstErr(rs: seq<Result<ItemInfo, Failure>>): (k: nat)
    ensures k <= |rs|
    ensures forall j | 0 <= j < k :: rs[j].Ok?
    ensures k < |rs| ==> rs[k].Err?
  {
    if rs == [] || rs[0].Err? then 0 else 1 + FirstErr(rs[1..])
  }

  /** The items of the results that succeeded, in order. */
  function Values(rs: seq<Result<ItemInfo, Failure>>): (r: seq<ItemInfo>)
    ensures |r| <= |rs|
  {
    if rs == [] then []
    else
      var front := rs[..|rs| - 1];
      assert rs == front + [rs[|rs| - 1]];
      Values(front) + match rs[|rs| - 1] case Ok(info) => [info] case Err(_) => []
  }

  /** A failure at a position no failure precedes is the first failure. */
  lemma StopsAt(rs: seq<Result<ItemInfo, Failure>>, k: nat)
    requires k <= FirstErr(rs) && k < |rs| && rs[k].Err?
    ensures FirstErr(rs) == k
  {
  }

  /** A success at a position no failure precedes extends the values read so far. */
  lemma ReadOn(rs: seq<Result<ItemInfo, Failure>>, k: nat)
    requires k <= FirstErr(rs) && k < |rs| && rs[k].Ok?
    ensures k + 1 <= FirstErr(rs)
    ensures Values(rs[..k + 1]) == Values(rs[..k]) + [rs[k].value]
  {
    assert rs[..k + 1][..k] == rs[..k];
  }

  /** When every result succeeded, the k-th value comes from the k-th result. */
  lemma {:induction false} ValuesInOrder(rs: seq<Result<ItemInfo, Failure>>)
    requires forall j | 0 <= j < |rs| :: rs[j].Ok?
    ensures |Values(rs)| == |rs|
    ensures forall j | 0 <= j < |rs| :: Values(rs)[j] == rs[j].value
  {
    if rs != [] {
      ValuesInOrder(rs[..|rs| - 1]);
    }
  }

  /** The agent's manager for one auction house. */
  class AuctionManager {
    const auctionId: string
    /** The id `auctionClient.getAgentId()` reports for this agent. */
    const agentId: int32
    var items: seq<ItemInfo>
    var activeBids: set<string>

    function Viewed(): View
      reads this
    {
      View(items, activeBids)
    }

    constructor (auctionId: string, agentId: int32)
      ensures this.auctionId == auctionId && this.agentId == agentId
      ensures items == [] && activeBids == {}
    {
      this.auctionId := auctionId;
      this.agentId := agentId;
      items := [];
      activeBids := {};
    }

    /** The StringBuilder loop: the description words appended with a space between each two. */
    static method BuildDescription(parts: seq<string>) returns (description: string)
      ensures description == Rebuilt(parts)
    {
      description := "";
      var i := 2;
      while i < |parts| - 2
        invariant 2 <= i <= if |parts| >= 4 then |parts| - 2 else 2
        invariant i == 2 ==> description == ""
        invariant 2 < i < |parts| - 2 ==> description == Join(parts[2..i]) + " "
        invariant 2 < i && i == |parts| - 2 ==> description == Join(parts[2..i])
      {
        if i > 2 {
          assert parts[2..i + 1] == parts[2..i] + [parts[i]];
          JoinAppend(parts[2..i], [parts[i]]);
        }
        assert Join([parts[i]]) == parts[i];
        description := description + parts[i];
        if i != |parts| - 3 {
          description := description + " ";
        }
        i := i + 1;
      }
      if |parts| >= 4 && i == 2 {
        assert parts[2..|parts| - 2] == [];
      }
    }

    /** The parsing shared by `parseItem` and `ITEM_UPDATED`. */
    method ReadItem(parts: seq<string>) returns (r: Result<ItemInfo, Failure>)
      ensures r == ParsedItem(auctionId, parts)
    {
      if |parts| < 2 {
        return Err(IndexOutOfBounds);
      }
      var itemId := parts[1];
      var description := BuildDescription(parts);
      if |description| < 2 {
        return Err(IndexOutOfBounds);
      }
      description := description[1..|description| - 1];
      var minBid := ParseInt(parts[|parts| - 2]);
      if minBid.None? {
        return Err(NumberFormat);
      }
      var currBid := ParseInt(parts[|parts| - 1]);
      if currBid.None? {
        return Err(NumberFormat);
      }
      return Ok(ItemInfo(auctionId, itemId, description, minBid.value, currBid.value));
    }

    /** `parseItem`: append the item read from the tokens, or raise and append nothing. */
    method ParseItem(item: seq<string>) returns (failure: Option<Failure>)
      modifies this`items
      ensures ParsedItem(auctionId, item).Ok? ==> failure == None && items == old(items) + [ParsedItem(auctionId, item).value]
      ensures ParsedItem(auctionId, item).Err? ==> failure == Some(ParsedItem(auctionId, item).error) && items == old(items)
    {
      var r := ReadItem(item);
      if r.Err? {
        return Some(r.error);
      }
      items := items + [r.value];
      return None;
    }

    /**
     * `parseItemsList`: the entries are read in order; the first one that
     * raises stops the loop, and the items read before it stay.
     */
    method ParseItemsList(itemList: seq<seq<string>>) returns (failure: Option<Failure>)
      modifies this`items
      ensures items == old(items) + Values(ReadAll(auctionId, itemList)[..FirstErr(ReadAll(auctionId, itemList))])
      ensures failure == None <==> FirstErr(ReadAll(auctionId, itemList)) == |itemList|
      ensures failure.Some? ==> ReadAll(auctionId, itemList)[FirstErr(ReadAll(auctionId, itemList))] == Err(failure.value)
    {
      ghost var rs := ReadAll(auctionId, itemList);
      var k := 0;
      while k < |itemList|
        invariant k <= FirstErr(rs)
        invariant items == old(items) + Values(rs[..k])
      {
        failure := ParseItem(itemList[k]);
        if failure.Some? {
          StopsAt(rs, k);
          return;
        }
        ReadOn(rs, k);
        k := k + 1;
      }
      assert rs[..k] == rs;
      failure := None;
    }

    /** The `for` loop of `ITEM_UPDATED`: overwrite the first item with the id, else append. */
    method UpdateItem(info: ItemInfo)
      modifies this`items
      ensures items == Upsert(old(items), info)
    {
      var k := 0;
      while k < |items| && items[k].itemId != info.itemId
        invariant k <= |items|
        invariant forall j | 0 <= j < k :: items[j].itemId != info.itemId
      {
        k := k + 1;
      }
      FirstIndexUnique(items, info.itemId, k);
      if k < |items| {
        items := items[k := items[k].(description := info.description, minBid := info.minBid, currBid := info.currBid)];
      } else {
        items := items + [info];
      }
    }

    /** `items.removeIf(...)`: keep, in order, the items whose id differs. */
    method RemoveItems(itemId: string)
      modifies this`items
      ensures items == WithoutId(old(items), itemId)
    {
      var kept := [];
      var i := 0;
      while i < |items|
        invariant i <= |items|
        invariant kept == WithoutId(items[..i], itemId)
      {
        assert items[..i + 1][..i] == items[..i];
        if items[i].itemId != itemId {
          kept := kept + [items[i]];
        }
        i := i + 1;
      }
      assert items[..i] == items;
      items := kept;
    }

    /** `handleMessage`: decode the line and act on its verb. */
    method HandleMessage(message: string) returns (outcome: Result<Option<Transfer>, Failure>)
      modifies this`items, this`activeBids
      ensures Viewed() == Handle(auctionId, agentId, old(Viewed()), message).view
      ensures outcome == Handle(auctionId, agentId, old(Viewed()), message).outcome
    {
      var parts := Decode(message);
      var verb := parts[0];
      if verb == "ACCEPTED" {
        if |parts| < 2 {
          return Err(IndexOutOfBounds);
        }
        activeBids := activeBids + {parts[1]};
      } else if verb == "OUTBID" {
        if |parts| < 2 {
          return Err(IndexOutOfBounds);
        }
        activeBids := activeBids - {parts[1]};
      } else if verb == "WINNER" {
        if |parts| < 2 {
          return Err(IndexOutOfBounds);
        }
        var amount := ParseInt(parts[1]);
        if amount.None? {
          return Err(NumberFormat);
        }
        var house := ParseInt(auctionId);
        if house.None? {
          return Err(NumberFormat);
        }
        if |parts| < 3 {
          return Err(IndexOutOfBounds);
        }
        activeBids := activeBids - {parts[2]};
        return Ok(Some(Transfer(agentId, house.value, amount.value)));
      } else if verb == "ITEM_UPDATED" {
        if |parts| >= 5 {
          var r := ReadItem(parts);
          if r.Err? {
            return Err(r.error);
          }
          UpdateItem(r.value);
        }
      } else if verb == "ITEM_SOLD" {
        if |parts| < 2 {
          return Err(IndexOutOfBounds);
        }
        RemoveItems(parts[1]);
        activeBids := activeBids - {parts[1]};
      }
      return Ok(None);
    }

    /** `hasActiveBids`: whether this agent still holds an accepted bid here. */
    function HasActiveBids(): (r: bool)
      reads this
      ensures r <==> exists id :: id in activeBids
    {
      activeBids != {}
    }
  }
}
