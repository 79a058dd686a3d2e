# Distributed auction: the bookkeeping core

A distributed auction has three kinds of processes. A bank keeps accounts.
Auction houses each list a few items at a time. Agents bid on those items.
They talk over sockets in single-line text messages. This project models,
in Dafny, the bookkeeping under that networking and proves what it does:

- **AuctionItems** — one item at an auction house. A bid is taken only when
  the item is unsold, the amount is strictly above the current bid and at
  least the minimum bid. Otherwise it is silently ignored. `AuctionItem` is
  a class whose bid fields change in place. `BidState`, `AfterBid`,
  `AfterSale` and `Replay` specify it, and lemmas state what holds over
  every sequence of calls.
- **Catalog** — an auction house's item manager. It has a map of open
  items keyed by id, plus a first-in first-out queue of waiting items.
  - Loading reads `description,minBid` lines and numbers the new items from 1.
  - After loading, up to three items are opened.
  - Selling an item closes it, flags it sold, and opens the head of the queue.
  - `ItemManager` is a class. `Listing`, `ParseCatalog`, `Promote` and `Sell` specify it.
- **Ledger** — a bank account. The available balance is the total minus
  the blocked funds. The two "setters" add a delta to those amounts. Both
  amounts are Java `int`s, so the model wraps every sum around modulo 2^32
  (module **Int32**).
- **Message** — the line codec. `encode` joins a command and its arguments
  with single spaces. `decode` is `trim()` followed by `split("\\s+")`.
  **JavaText** models the Java library operations it depends on:
  `String.trim`, the `\s` character class, `Integer.parseInt` and
  `String.valueOf`.
- **AgentView** — an agent's view of one auction house. It holds the items
  the house lists and the ids of the items on which the agent has an
  accepted bid.
  - It reads `ITEM` lines, putting quoted multi-word descriptions back together.
  - It acts on the `ACCEPTED`, `REJECTED`, `OUTBID`, `WINNER`, `ITEM_UPDATED` and `ITEM_SOLD` messages.
  - `AuctionManager` is a class. `HandleParts`, `ParsedItem`, `Upsert` and `WithoutId` specify it.

Java exceptions become values. `Integer.parseInt` failing gives `None`. An
out-of-bounds array index gives `Err(IndexOutOfBounds)`, and so does a
`substring` out of bounds as measured in the model's characters (see the
`AgentView.ParsedItem` line under "Left out"). A `NumberFormatException`
gives `Err(NumberFormat)`. The state at the moment
of the exception is what the model keeps.

## Model

| member | source | states |
|---|---|---|
| AuctionItems.AfterBid | src/auctionhouse/AuctionItem.java:96-102 | an accepted bid sets the current bid and bidder to the amount and the agent; the state is unchanged exactly when the rule (unsold, above the current bid, at least the minimum) rejects the bid |
| AuctionItems.AfterSale | src/auctionhouse/AuctionItem.java:107-109 | selling sets the sold flag and keeps the current bid and bidder |
| AuctionItems.UnbidSatisfiesInvariant | src/auctionhouse/AuctionItem.java:34-36 | a new item (bid 0, bidder -1, unsold) satisfies the bid invariant |
| AuctionItems.ReplayNeverLowersBid | src/auctionhouse/AuctionItem.java:97-101 | no sequence of bids and sales lowers the current bid |
| AuctionItems.ReplayKeepsInvariant | src/auctionhouse/AuctionItem.java:97-100 | every sequence of calls keeps: bid >= 0, bid is 0 or at least the minimum, bid 0 means bidder -1 |
| AuctionItems.SoldIsFinal | src/auctionhouse/AuctionItem.java:97-99 | once sold, every further sequence of bids and sales leaves the item as it is |
| AuctionItems.SaleIsIdempotent | src/auctionhouse/AuctionItem.java:107-109 | selling twice is selling once |
| AuctionItems.Replay | src/auctionhouse/AuctionItem.java:96-109 | after any sequence of bids and sales, the item is sold exactly when it was sold before or one of the calls was a sale |
| AuctionItems.HighBidderMayRaise | src/auctionhouse/AuctionItem.java:96-102 | the current high bidder can outbid themselves: the bidder id is never compared |
| AuctionItems.AuctionItem.constructor | src/auctionhouse/AuctionItem.java:30-37 | id, description and minimum as given; bid 0, bidder -1, unsold; the invariant holds |
| AuctionItems.AuctionItem.PlaceBid | src/auctionhouse/AuctionItem.java:96-102 | the new bid state is `AfterBid` of the old one; only bid and bidder may change; the invariant is kept |
| AuctionItems.AuctionItem.MarkAsSold | src/auctionhouse/AuctionItem.java:107-109 | the new bid state is `AfterSale` of the old one; only the sold flag changes; the invariant is kept |
| AuctionItems.AuctionItem.SetActive | src/auctionhouse/AuctionItem.java:116-118 | only the active flag changes, to the given value |
| Catalog.CommaIndex | src/auctionhouse/ItemManager.java:29 | the index of the first comma: no comma before it, a comma at it unless it is the length |
| Catalog.ClassifyLine | src/auctionhouse/ItemManager.java:26-33 | after trimming, a line without a comma (a blank line among them) is skipped; a line with one is an entry exactly when the trimmed text after the first comma parses as an int, with the trimmed text before it as description and that int as minimum; otherwise it is malformed; a description is trimmed and holds no comma |
| Catalog.EntryLineReadsBack | src/auctionhouse/ItemManager.java:26-33 | for a description with no blank (a character at or below U+0020) at either end and no comma, the empty description included, the line `description,minBid` reads back as exactly that description and minimum bid |
| Catalog.ParseCatalog | src/auctionhouse/ItemManager.java:25-36 | a load gives at most one entry per line |
| Catalog.FailureIsFinal | src/auctionhouse/ItemManager.java:32 | after a minimum bid that is not an int, no later line is read |
| Catalog.StopsAtFailure | src/auctionhouse/ItemManager.java:25-36 | the result of a load is fixed by the lines up to the first malformed one |
| Catalog.SkippedLineIsInvisible | src/auctionhouse/ItemManager.java:27-30 | a blank or comma-less line can be removed without changing any entry, so it consumes no id |
| Catalog.EntriesInOrder | src/auctionhouse/ItemManager.java:25-35 | when every line is an entry, the k-th line gives the k-th entry |
| Catalog.Promote | src/auctionhouse/ItemManager.java:38-41 | opening never lengthens the queue, and opening at least as many items as are queued empties it |
| Catalog.PromoteTakesHead | src/auctionhouse/ItemManager.java:38-41 | promotion takes `min(n, pending)` items off the head of the queue and keeps the rest in order |
| Catalog.PromoteKeepsConsistent | src/auctionhouse/ItemManager.java:38-41 | promotion keeps each open item under its own id, the queue disjoint from the open items, and queued ids distinct |
| Catalog.PromoteOpensHead | src/auctionhouse/ItemManager.java:38-41 | promotion opens exactly the first `min(n, pending)` queued items, each under its id, keeping the open items it had |
| Catalog.LoadIntoEmpty | src/auctionhouse/ItemManager.java:38-41 | loading into an empty catalog opens the first `min(3, n)` items and queues the rest in input order |
| Catalog.Sell | src/auctionhouse/ItemManager.java:53-62 | selling an id that is not open changes nothing; selling an open id closes it (unless the head of the queue reuses it) and polls exactly one queued item when there is one |
| Catalog.SellSpec | src/auctionhouse/ItemManager.java:53-62 | selling an open id closes it for good, opens exactly the head of the queue, keeps the open count unless the queue was empty (then one less), keeps the other open items and consistency |
| Catalog.SellKeepsIdsBelow | src/auctionhouse/ItemManager.java:53-62 | a sale hands out no new id |
| Catalog.OpenItemIsListed | src/auctionhouse/ItemManager.java:45-47 | the open-item collection is empty exactly when no id is open |
| Catalog.ItemManager.constructor | src/auctionhouse/ItemManager.java:15-19 | no open items, an empty queue, next id 1 |
| Catalog.ItemManager.LoadItems | src/auctionhouse/ItemManager.java:21-43 | one new item per entry line, numbered from the next id; then up to three opened from the head of the queue, unless a minimum bid failed to parse |
| Catalog.ItemManager.QueueItems | src/auctionhouse/ItemManager.java:25-36 | the reading loop queues exactly the items made for the entries read before the first malformed line, with consecutive ids |
| Catalog.ItemManager.QueueLine | src/auctionhouse/ItemManager.java:29-35 | an entry line queues one new item under the next id; a malformed line stops the load |
| Catalog.ItemManager.OpenQueued | src/auctionhouse/ItemManager.java:38-41 | the promotion loop leaves the catalog as `Promote(old, 3)` |
| Catalog.ItemManager.AvailableItems | src/auctionhouse/ItemManager.java:45-47 | the result holds exactly the open items |
| Catalog.ItemManager.GetItem | src/auctionhouse/ItemManager.java:49-51 | the item filed under an open id, carrying that id; null exactly for an id that is not open, queued ids among them |
| Catalog.ItemManager.MarkItemAsSold | src/auctionhouse/ItemManager.java:53-62 | the catalog becomes `Sell(old, id)`, the sold item is flagged sold with its bid and bidder kept and its active flag untouched, and no id is handed out |
| Catalog.ItemManager.HasActiveAuctions | src/auctionhouse/ItemManager.java:64-66 | true exactly when the collection of open items is non-empty |
| Int32.Add | src/bank/Account.java:91 | Java `int` addition: the exact sum when it fits, otherwise the sum shifted by 2^32 |
| Int32.Sub | src/bank/Account.java:51 | Java `int` subtraction: the exact difference when it fits, otherwise shifted by 2^32 |
| Int32.AddNegCancels | src/bank/Account.java:90-92 | adding `d` and then `-d` gives back the start value, across any wrap-around |
| Ledger.Block | src/bank/Account.java:90-92 | `setBlockedFunds` leaves the total alone and adds the amount to the blocked funds, exactly when the sum fits in an int |
| Ledger.Deposit | src/bank/Account.java:98-100 | `setTotalBalance` leaves the blocked funds alone and adds the amount to the total, exactly when the sum fits in an int |
| Ledger.Available | src/bank/Account.java:50-52 | total minus blocked: exact when it fits in an int, congruent modulo 2^32 always |
| Ledger.EscrowedAvailable | src/bank/Account.java:50-52 | with `0 <= blocked <= total`, available is exactly total minus blocked and lies in `[0, total]` |
| Ledger.BlockThenUnblock | src/bank/Account.java:90-92 | `setBlockedFunds(d)` followed by `setBlockedFunds(-d)` restores the account |
| Ledger.BlockLowersAvailable | src/bank/Account.java:90-92 | blocking `d` lowers the available balance by `d` (as an int) and leaves the total alone |
| Ledger.DepositRaisesAvailable | src/bank/Account.java:98-100 | depositing `d` raises the available balance by `d` (as an int) and leaves the blocked funds alone |
| Ledger.BlockKeepsEscrow | src/bank/Account.java:90-92 | blocking at most the available amount keeps `0 <= blocked <= total` |
| Ledger.UnblockKeepsEscrow | src/bank/Account.java:90-92 | releasing at most the blocked amount keeps `0 <= blocked <= total` |
| Ledger.DepositKeepsEscrow | src/bank/Account.java:98-100 | a non-negative deposit that does not overflow keeps `0 <= blocked <= total` |
| Ledger.Account.constructor | src/bank/Account.java:38-44 | id, name and kind as given; total is the initial balance, nothing blocked, available equals the initial balance |
| Ledger.Account.AvailableBalance | src/bank/Account.java:50-52 | total minus blocked when that fits; between 0 and the total when the blocked funds lie within it |
| Ledger.Account.SetBlockedFunds | src/bank/Account.java:90-92 | adds the amount to the blocked funds only; the available balance drops by it |
| Ledger.Account.SetTotalBalance | src/bank/Account.java:98-100 | adds the amount to the total only; the available balance rises by it |
| JavaText.Trim | src/shared/Message.java:17 | `String.trim`: the result has no blank at either end and is no longer than the input (its full meaning is `TrimSpec` and `TrimUnique`) |
| JavaText.TrimSpec | src/shared/Message.java:17 | `String.trim` returns one contiguous slice of its argument, starting after the leading blanks, and every character it cuts off is blank |
| JavaText.TrimUnique | src/shared/Message.java:17 | conversely, any slice with no blank at either end and only blanks around it is exactly what `trim` returns |
| JavaText.ParseInt | src/auctionhouse/ItemManager.java:32 | `Integer.parseInt` accepts only an optional sign followed by decimal digits |
| JavaText.ParseDecimal | src/agent/AuctionManager.java:98-99 | what `String.valueOf` writes for an int, `Integer.parseInt` reads back |
| Message.JoinLength | src/shared/Message.java:13 | `String.join(" ", args)` puts exactly one separator between neighbours and adds nothing else |
| Message.Encode | src/shared/Message.java:12-14 | the command, one space, then the arguments joined by single spaces, with nothing else around |
| Message.Split | src/shared/Message.java:17 | `split("\\s+")`: a string with no whitespace is its own single field; otherwise trailing empty fields are removed |
| Message.JoinAppend | src/shared/Message.java:13 | joining two non-empty lists is joining each and putting one space between |
| Message.FieldsOfJoin | src/shared/Message.java:17 | splitting a non-empty list of tokens (non-empty, without `\s` whitespace) joined by single spaces gives the tokens back |
| Message.Decode | src/shared/Message.java:16-18 | never empty; `[""]` exactly for a blank line; otherwise only non-empty tokens; no token holds whitespace |
| Message.DecodeJoin | src/shared/Message.java:12-18 | a non-empty list of tokens (non-empty, without `\s` whitespace) whose joined line neither starts nor ends with a character at or below U+0020, joined with single spaces, decodes back to itself |
| Message.EncodeDecode | src/shared/Message.java:12-18 | `decode(encode(cmd, args)) == [cmd] + args` when the command and arguments are tokens (non-empty, without `\s` whitespace) and the line neither starts nor ends with a character at or below U+0020; also with no arguments (the trailing space is trimmed) |
| Message.DecodeNormalizes | src/shared/Message.java:17 | decoding, joining with single spaces and decoding again gives the same tokens |
| Message.DecodedIsFramed | src/shared/Message.java:16-18 | a non-blank line decodes to tokens whose outer ends survive `trim` |
| Message.QuotesAreNotSpecial | src/shared/Message.java:17 | a quoted two-word description decodes to two tokens, each carrying one quote |
| AgentView.ParsedItem | src/agent/AuctionManager.java:86-103 | success needs at least five tokens; the id is token 1; the description is the words between the id and the bids, joined by single spaces, without its first and last character; the bids are what `parseInt` reads from the last two tokens; fewer than two tokens, or a rebuilt description shorter than two characters, is an index error; otherwise a bid that does not parse is a number-format error, and two bids that parse give an item |
| AgentView.MissingDescriptionFails | src/agent/AuctionManager.java:91-96 | four or fewer tokens always fail: there is no quoted description to strip |
| AgentView.JoinQuoted | src/agent/AuctionManager.java:90-96 | the tokens of a quoted description, rebuilt with single spaces, are the quoted description |
| AgentView.ItemLineTokens | src/shared/Message.java:12-18 | for a verb with no blank at either end, an id token and a description made of tokens, an item line decodes to verb, id, the description's tokens and the two bids |
| AgentView.ItemRoundTrip | src/agent/AuctionManager.java:86-101 | reading an encoded `ITEM` line whose id is a token and whose description is tokens separated by single spaces gives back its id, its description without quotes and its two bids |
| AgentView.FirstIndex | src/agent/AuctionManager.java:165-173 | the position of the first item with the id: none before it, a match at it unless it is the length |
| AgentView.Upsert | src/agent/AuctionManager.java:164-176 | the list keeps its length when the id is present and grows by one otherwise; every item other than the first with the id is unchanged; that position holds the id with the new description, keeps its auction id when it was already there, and is exactly the new item when it was appended |
| AgentView.UpsertSpec | src/agent/AuctionManager.java:164-176 | after an update, the first item with the id is the old item with only its description and bids replaced (its auction id kept), every other item is unchanged, and a new id appends exactly the given item |
| AgentView.UpsertIdempotent | src/agent/AuctionManager.java:164-176 | the same update twice is the update once |
| AgentView.WithoutId | src/agent/AuctionManager.java:186 | an item survives exactly when it was there and has another id; nothing changes when no item has the id |
| AgentView.WithoutIdCounts | src/agent/AuctionManager.java:186 | `removeIf` is a filter: no item with the id is left, and every other item keeps its number of occurrences |
| AgentView.WithoutIdAppend | src/agent/AuctionManager.java:186 | removing from a concatenation is removing from each part, keeping the survivors' order |
| AgentView.WithoutIdCommutes | src/agent/AuctionManager.java:186 | removals of two ids give the same list in either order |
| AgentView.HandleParts | src/agent/AuctionManager.java:110-198 | an exception leaves everything unchanged; unknown verbs and `REJECTED` change nothing; a short `ITEM_UPDATED` is ignored; only `ITEM_UPDATED` and `ITEM_SOLD` touch the items; only `WINNER` asks for a transfer, from this agent to the house |
| AgentView.Handle | src/agent/AuctionManager.java:110-198 | a blank message changes nothing; an exception leaves the view unchanged; a transfer goes from this agent to the house whose id string `parseInt` reads |
| AgentView.AcceptedAdds | src/agent/AuctionManager.java:114-118 | for an id that is a token not ending in a character at or below U+0020, `ACCEPTED id` adds the id to the active bids and changes nothing else |
| AgentView.OutbidRemoves | src/agent/AuctionManager.java:129-133 | for an id that is a token not ending in a character at or below U+0020, `OUTBID id` removes the id from the active bids and changes nothing else |
| AgentView.AcceptedThenOutbid | src/agent/AuctionManager.java:114-133 | for an id that is a token not ending in a character at or below U+0020, accepted and then outbid leaves no active bid on the item and the rest as before |
| AgentView.WinnerTransfers | src/agent/AuctionManager.java:135-149 | when the house id is a decimal int and the item id is a token not ending in a character at or below U+0020, `WINNER amount id` asks the bank to move the amount from this agent to the house and ends the bid |
| AgentView.ItemSoldRemoves | src/agent/AuctionManager.java:184-192 | for an id that is a token not ending in a character at or below U+0020, `ITEM_SOLD id` removes every item with the id and ends the bid |
| AgentView.ItemUpdatedUpserts | src/agent/AuctionManager.java:151-182 | an `ITEM_UPDATED` line whose id is a token and whose description is tokens separated by single spaces updates the first item with its id, or appends it |
| AgentView.FirstErr | src/agent/AuctionManager.java:75-80 | the position of the first failed entry: every entry before it was read |
| AgentView.ValuesInOrder | src/agent/AuctionManager.java:75-80 | when every entry is read, the k-th item comes from the k-th entry |
| AgentView.AuctionManager.constructor | src/agent/AuctionManager.java:37-44 | the house id and agent id as given; no items and no active bids |
| AgentView.AuctionManager.BuildDescription | src/agent/AuctionManager.java:90-95 | the builder loop gives the description tokens joined by single spaces |
| AgentView.AuctionManager.ReadItem | src/agent/AuctionManager.java:86-101 | the outcome is `ParsedItem` of the tokens |
| AgentView.AuctionManager.ParseItem | src/agent/AuctionManager.java:86-103 | a readable line appends its item; an unreadable one raises and appends nothing |
| AgentView.AuctionManager.ParseItemsList | src/agent/AuctionManager.java:75-80 | the items of the entries before the first failure are appended in order; the failure, if any, is that entry's |
| AgentView.AuctionManager.UpdateItem | src/agent/AuctionManager.java:164-176 | the items become `Upsert(old, info)` |
| AgentView.AuctionManager.RemoveItems | src/agent/AuctionManager.java:186 | the items become `WithoutId(old, id)` |
| AgentView.AuctionManager.HandleMessage | src/agent/AuctionManager.java:110-198 | items, active bids and outcome are those of `Handle` on the old state |
| AgentView.AuctionManager.HasActiveBids | src/agent/AuctionManager.java:232-234 | true exactly when some id is among the active bids |

## Left out

- Sockets, servers, the polling read loop and the threads are left out. The model is sequential, and `synchronized` and the concurrent collections become plain state.
- The GUI and its callbacks are left out: `sendGuiMessage`, `refreshBalance`, `Platform.runLater(onItemUpdate)` and the console prints.
- The bank's `transferFunds` call in the `WINNER` branch is a foreign call. The model records it as an emitted `Transfer` and does not model a failed transfer.
- `auctionClient.getAgentId()` is a foreign call. It is the constant field `agentId`.
- Opening the catalog resource with the class loader and `Scanner` is left out. `LoadItems` takes the resource's lines.
- Catalog.ItemManager.LoadItems: does not state that the queued items are freshly allocated. It states that their ids are new and distinct, which already rules out sharing an item with the catalog.
- Catalog.ItemManager.LoadItems: does not restate that each new item starts unbid. The `AuctionItem` constructor's contract says so.
- Catalog.ItemManager.AvailableItems: the result is a set. The order of `new ArrayList<>(activeItems.values())` is the hash map's and is not modelled.
- `nextItemId` is an unbounded integer. The `AtomicInteger` wrap-around after 2^31 - 1 items is not modelled.
- AgentView.ParsedItem: strings are sequences of Unicode code points, while Java's `length` and `substring` count UTF-16 units. A description whose first or last character lies outside the Basic Multilingual Plane (an emoji, say) is measured and stripped differently, and the model does not capture that.
- JavaText.ParseInt: accepts ASCII digits only. `Integer.parseInt` also accepts other Unicode decimal digits.
- `ItemInfo` is a mutable Java object that `getItems` hands out. Here it is a value, so aliasing through that list is not modelled.
- `toString`, the plain getters and `setOnItemUpdate` are left out. The getters are the fields and constants of the classes.
- The doc comment on the auction house's `hasActiveAuctions` disagrees with the code. `Catalog.ItemManager.HasActiveAuctions` follows the code: an open item counts even if nobody has bid on it.
