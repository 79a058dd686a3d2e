/**
 * The catalog of an auction house: the items open for bidding, keyed by
 * id, and a first-in first-out queue of items waiting for a free slot.
 * Loading a catalog queues one item per `description,minBid` line and
 * opens up to three; selling an open item closes it and opens the next
 * queued one.
 */
module Catalog {
  import opened Results
  import opened Int32
  import opened JavaText
  import opened AuctionItems

  /*
   * Reading the catalog text.
   */

  /** Index of the first comma of `s`, or `|s|` when there is none. */
  function CommaIndex(s: string): (i: nat)
    ensures i <= |s|
    ensures forall k | 0 <= k < i :: s[k] != ','
    ensures i < |s| ==> s[i] == ','
  {
    if s == [] || s[0] == ',' then 0 else 1 + CommaIndex(s[1..])
  }

  datatype CatalogEntry = CatalogEntry(description: string, minimumBid: int32)

  /** What one line of the catalog contributes. */
  datatype LineKind = Skipped | Entry(entry: CatalogEntry) | Malformed

  /** The text before the first comma, trimmed: the description half of `split(",", 2)`. */
  function DescriptionText(line: string): string
    requires CommaIndex(line) < |line|
  {
    Trim(line[..CommaIndex(line)])
  }

  /** The text after the first comma, trimmed: the minimum-bid half of `split(",", 2)`. */
  function BidText(line: string): string
    requires CommaIndex(line) < |line|
  {
    Trim(line[CommaIndex(line) + 1..])
  }

  /**
   * One line: trimmed; blank and comma-less lines are skipped; otherwise
   * split at the first comma into a trimmed description and a trimmed
   * minimum bid, which must parse as an int (else NumberFormatException).
   */
  function ClassifyLine(raw: string): (k: LineKind)
    ensures CommaIndex(Trim(raw)) == |Trim(raw)| ==> k == Skipped
    ensures k.Entry? <==> CommaIndex(Trim(raw)) < |Trim(raw)| && ParseInt(BidText(Trim(raw))).Some?
    ensures k.Entry? ==> k.entry.description == DescriptionText(Trim(raw)) && ParseInt(BidText(Trim(raw))) == Some(k.entry.minimumBid)
    ensures k.Malformed? <==> CommaIndex(Trim(raw)) < |Trim(raw)| && ParseInt(BidText(Trim(raw))).None?
    ensures k.Entry? ==> Trimmed(k.entry.description) && CommaIndex(k.entry.description) == |k.entry.description|
  {
    var line := Trim(raw);
    if line == "" then Skipped
    else if CommaIndex(line) == |line| then Skipped
    else
      match ParseInt(BidText(line))
      case None => Malformed
      case Some(m) => Entry(CatalogEntry(DescriptionText(line), m))
  }

  /** The entries read from the lines, up to the first malformed line, and whether there was one. */
  datatype Parsed = Parsed(entries: seq<CatalogEntry>, failed: bool)

  /** The catalog lines, each classified on its own. */
  function Classify(lines: seq<string>): (r: seq<LineKind>)
    ensures |r| == |lines|
  {
    if lines == [] then [] else Classify(lines[..|lines| - 1]) + [ClassifyLine(lines[|lines| - 1])]
  }

  /** The reading loop: entries are collected in order until a malformed line stops it. */
  function Collect(kinds: seq<LineKind>): (p: Parsed)
    ensures |p.entries| <= |kinds|
    decreases |kinds|
  {
    if kinds == [] then Parsed([], false)
    else
      var pre := Collect(kinds[..|kinds| - 1]);
      if pre.failed then pre
      else
        match kinds[|kinds| - 1]
        case Skipped => pre
        case Malformed => Parsed(pre.entries, true)
        case Entry(e) => Parsed(pre.entries + [e], false)
  }

  function ParseCatalog(lines: seq<string>): (p: Parsed)
    ensures |p.entries| <= |lines|
  {
    Collect(Classify(lines))
  }

  /** A line written as `description,minBid` reads back as that entry. */
  lemma EntryLineReadsBack(description: string, minimumBid: int32)
    requires Trimmed(description) && CommaIndex(description) == |description|
    ensures ClassifyLine(description + "," + Decimal(minimumBid)) == Entry(CatalogEntry(description, minimumBid))
  {
    var line := description + "," + Decimal(minimumBid);
    EntryLineIsTrimmed(description, minimumBid);
    EntryLineHalves(description, minimumBid);
    assert ParseInt(BidText(line)) == Some(minimumBid) by {
      ParseDecimal(minimumBid);
    }
  }

  /** A written entry line has no blank at either end. */
  lemma EntryLineIsTrimmed(description: string, minimumBid: int32)
    requires Trimmed(description)
    ensures Trim(description + "," + Decimal(minimumBid)) == description + "," + Decimal(minimumBid)
  {
    var number := Decimal(minimumBid);
    var line := description + "," + number;
    ParseDecimal(minimumBid);
    ParsedIsToken(number);
    if description != "" {
      assert line[0] == description[0];
    } else {
      assert line[0] == ',';
    }
    assert line[|line| - 1] == number[|number| - 1];
    TrimOfTrimmed(line);
  }

  /** A written entry line splits at its comma into the description and the number, each already trimmed. */
  lemma EntryLineHalves(description: string, minimumBid: int32)
    requires Trimmed(description) && CommaIndex(description) == |description|
    ensures CommaIndex(description + "," + Decimal(minimumBid)) == |description|
    ensures DescriptionText(description + "," + Decimal(minimumBid)) == description
    ensures BidText(description + "," + Decimal(minimumBid)) == Decimal(minimumBid)
  {
    var number := Decimal(minimumBid);
    SkipComma(description, number);
    CommaHalves(description, number);
    TrimOfTrimmed(description);
    ParseDecimal(minimumBid);
    ParsedIsToken(number);
    TrimOfTrimmed(number);
  }

  lemma CommaHalves(a: string, b: string)
    ensures (a + "," + b)[..|a|] == a && (a + "," + b)[|a| + 1..] == b
  {
  }

  lemma {:induction false} SkipComma(a: string, b: string)
    requires CommaIndex(a) == |a|
    ensures CommaIndex(a + "," + b) == |a|
  {
    if a != [] {
      assert (a + "," + b)[1..] == a[1..] + "," + b;
      SkipComma(a[1..], b);
    }
  }

  /** After the first malformed line nothing more is read. */
  lemma {:induction false} FailureIsFinal(kinds: seq<LineKind>, more: seq<LineKind>)
    requires Collect(kinds).failed
    ensures Collect(kinds + more) == Collect(kinds)
    decreases |more|
  {
    if more != [] {
      var front := more[..|more| - 1];
      FailureIsFinal(kinds, front);
      var all := kinds + more;
      assert all[..|all| - 1] == kinds + front;
      assert Collect(all) == Collect(kinds + front);
    } else {
      assert kinds + more == kinds;
    }
  }

  /** Reading one more line appends its classification. */
  lemma ClassifyStep(lines: seq<string>, i: nat)
    requires i < |lines|
    ensures Classify(lines[..i + 1]) == Classify(lines[..i]) + [ClassifyLine(lines[i])]
  {
    assert lines[..i + 1][..i] == lines[..i];
  }

  /** The entries one line contributes. */
  function Contributes(k: LineKind): (r: seq<CatalogEntry>)
    ensures |r| <= 1
  {
    if k.Entry? then [k.entry] else []
  }

  /** One step of the reading loop, as long as nothing has failed yet. */
  lemma CollectStep(kinds: seq<LineKind>, k: LineKind)
    requires !Collect(kinds).failed
    ensures Collect(kinds + [k]) == Parsed(Collect(kinds).entries + Contributes(k), k.Malformed?)
  {
    assert (kinds + [k])[..|kinds|] == kinds;
    if !k.Entry? {
      assert Collect(kinds).entries + [] == Collect(kinds).entries;
    }
  }

  /** Once the lines read so far hold a malformed one, the lines after them do not matter. */
  lemma {:induction false} StopsAtFailure(lines: seq<string>, i: nat)
    requires i <= |lines| && Collect(Classify(lines[..i])).failed
    ensures ParseCatalog(lines) == Collect(Classify(lines[..i]))
    decreases |lines|
  {
    if i == |lines| {
      assert lines[..i] == lines;
    } else {
      var front := lines[..|lines| - 1];
      assert front[..i] == lines[..i];
      StopsAtFailure(front, i);
      var kinds := Classify(lines);
      assert kinds[..|kinds| - 1] == Classify(front);
    }
  }

  /** A blank or comma-less line consumes no item id: removing it changes nothing. */
  lemma {:induction false} SkippedLineIsInvisible(before: seq<LineKind>, after: seq<LineKind>)
    ensures Collect(before + [Skipped] + after) == Collect(before + after)
    decreases |after|
  {
    if after == [] {
      assert (before + [Skipped] + after)[..|before| + 1 - 1] == before;
      assert before + after == before;
    } else {
      var front := after[..|after| - 1];
      SkippedLineIsInvisible(before, front);
      assert (before + [Skipped] + after)[..|before + [Skipped] + after| - 1] == before + [Skipped] + front;
      assert (before + after)[..|before + after| - 1] == before + front;
    }
  }

  /** When every line is an entry, the k-th line gives the k-th entry (and so the k-th id). */
  lemma {:induction false} EntriesInOrder(kinds: seq<LineKind>)
    requires forall k | 0 <= k < |kinds| :: kinds[k].Entry?
    ensures !Collect(kinds).failed && |Collect(kinds).entries| == |kinds|
    ensures forall k | 0 <= k < |kinds| :: Collect(kinds).entries[k] == kinds[k].entry
    decreases |kinds|
  {
    if kinds != [] {
      EntriesInOrder(kinds[..|kinds| - 1]);
    }
  }

  /*
   * The open and queued items.
   */

  datatype Listing = Listing(active: map<int, AuctionItem>, pending: seq<AuctionItem>)

  function Ids(items: seq<AuctionItem>): (r: seq<int>)
    ensures |r| == |items| && forall k | 0 <= k < |items| :: r[k] == items[k].itemId
  {
    seq(|items|, k requires 0 <= k < |items| => items[k].itemId)
  }

  /** Every open item is filed under its own id, no queued item is open, and no id is queued twice. */
  predicate Consistent(l: Listing) {
    (forall id | id in l.active :: l.active[id].itemId == id)
    && (forall k | 0 <= k < |l.pending| :: l.pending[k].itemId !in l.active)
    && (forall j, k | 0 <= j < k < |l.pending| :: l.pending[j].itemId != l.pending[k].itemId)
  }

  /** Open at most `n` items from the head of the queue, one at a time. */
  function Promote(l: Listing, n: nat): (r: Listing)
    ensures |r.pending| <= |l.pending|
    ensures n >= |l.pending| ==> r.pending == []
    decreases n
  {
    if n == 0 || l.pending == [] then l
    else Promote(Listing(l.active[l.pending[0].itemId := l.pending[0]], l.pending[1..]), n - 1)
  }

  /** Close the open item `id` and open the head of the queue in its place; any other id changes nothing. */
  function Sell(l: Listing, id: int): (r: Listing)
    ensures id !in l.active ==> r == l
    ensures id in l.active && (l.pending == [] || l.pending[0].itemId != id) ==> id !in r.active
    ensures |r.pending| == if id in l.active && l.pending != [] then |l.pending| - 1 else |l.pending|
  {
    if id !in l.active then l
    else
      var rest := l.active - {id};
      if l.pending == [] then Listing(rest, [])
      else Listing(rest[l.pending[0].itemId := l.pending[0]], l.pending[1..])
  }

  function Min(a: int, b: int): int {
    if a <= b then a else b
  }

  lemma PromoteOneKeepsConsistent(l: Listing)
    requires Consistent(l) && l.pending != []
    ensures Consistent(Listing(l.active[l.pending[0].itemId := l.pending[0]], l.pending[1..]))
  {
    var l' := Listing(l.active[l.pending[0].itemId := l.pending[0]], l.pending[1..]);
    forall k | 0 <= k < |l'.pending|
      ensures l'.pending[k].itemId !in l'.active
    {
      assert l'.pending[k] == l.pending[k + 1];
    }
  }

  /** Promotion takes `min(n, |pending|)` items off the head of the queue and leaves the rest in order. */
  lemma {:induction false} PromoteTakesHead(l: Listing, n: nat)
    ensures Promote(l, n).pending == l.pending[Min(n, |l.pending|)..]
    decreases n
  {
    if n != 0 && l.pending != [] {
      var l' := Listing(l.active[l.pending[0].itemId := l.pending[0]], l.pending[1..]);
      PromoteTakesHead(l', n - 1);
      assert l.pending[Min(n, |l.pending|)..] == l'.pending[Min(n - 1, |l'.pending|)..];
    }
  }

  lemma {:induction false} PromoteKeepsConsistent(l: Listing, n: nat)
    requires Consistent(l)
    ensures Consistent(Promote(l, n))
    decreases n
  {
    if n != 0 && l.pending != [] {
      PromoteOneKeepsConsistent(l);
      PromoteKeepsConsistent(Listing(l.active[l.pending[0].itemId := l.pending[0]], l.pending[1..]), n - 1);
    }
  }

  /**
   * `r` has the open items of `l` plus the first `m` queued items of `l`,
   * each under its own id: exactly those ids, the old items unchanged, so
   * `m` more open items.
   */
  ghost predicate OpensHead(l: Listing, r: Listing, m: nat)
    requires m <= |l.pending|
  {
    (forall id :: id in r.active <==> id in l.active || id in Ids(l.pending[..m]))
    && (forall id | id in l.active :: id in r.active && r.active[id] == l.active[id])
    && (forall k | 0 <= k < m :: l.pending[k].itemId in r.active && r.active[l.pending[k].itemId] == l.pending[k])
    && |r.active| == |l.active| + m
  }

  /** Opening the head first and then `m - 1` more is opening `m`. */
  lemma OpensHeadStep(l: Listing, r: Listing, m: nat)
    requires Consistent(l) && 1 <= m <= |l.pending|
    requires OpensHead(Listing(l.active[l.pending[0].itemId := l.pending[0]], l.pending[1..]), r, m - 1)
    ensures OpensHead(l, r, m)
  {
    var head := l.pending[0];
    var l' := Listing(l.active[head.itemId := head], l.pending[1..]);
    assert forall id :: id in r.active <==> id in l.active || id in Ids(l.pending[..m]) by {
      assert Ids(l.pending[..m]) == [head.itemId] + Ids(l'.pending[..m - 1]);
    }
    assert forall k | 0 <= k < m :: l.pending[k].itemId in r.active && r.active[l.pending[k].itemId] == l.pending[k] by {
      forall k | 0 < k < m
        ensures l'.pending[k - 1] == l.pending[k]
      {
      }
    }
    assert head.itemId !in l.active;
  }

  /** Promotion opens exactly the first `min(n, |pending|)` queued items. */
  lemma {:induction false} PromoteOpensHead(l: Listing, n: nat)
    requires Consistent(l)
    ensures OpensHead(l, Promote(l, n), Min(n, |l.pending|))
    decreases n
  {
    if n != 0 && l.pending != [] {
      var l' := Listing(l.active[l.pending[0].itemId := l.pending[0]], l.pending[1..]);
      PromoteOneKeepsConsistent(l);
      PromoteOpensHead(l', n - 1);
      assert Min(n - 1, |l'.pending|) == Min(n, |l.pending|) - 1;
      OpensHeadStep(l, Promote(l, n), Min(n, |l.pending|));
    } else {
      assert l.pending[..0] == [];
    }
  }

  /** Loading `items` into an empty catalog opens the first three (or all, if fewer) and queues the rest in order. */
  lemma LoadIntoEmpty(items: seq<AuctionItem>)
    requires forall j, k | 0 <= j < k < |items| :: items[j].itemId != items[k].itemId
    ensures var m := Min(3, |items|); var r := Promote(Listing(map[], items), 3);
      r.pending == items[m..]
      && (forall id :: id in r.active <==> id in Ids(items[..m]))
      && (forall k | 0 <= k < m :: r.active[items[k].itemId] == items[k])
  {
    PromoteTakesHead(Listing(map[], items), 3);
    PromoteOpensHead(Listing(map[], items), 3);
  }

  /**
   * Selling an open item: it is no longer open and can never be opened
   * again (it is not queued), the head of the queue (if any) is opened, the
   * number of open items stays the same unless the queue was empty, and the
   * catalog stays consistent.
   */
  lemma SellSpec(l: Listing, id: int)
    requires Consistent(l) && id in l.active
    ensures var r := Sell(l, id);
      Consistent(r)
      && id !in r.active && id !in Ids(r.pending)
      && r.pending == (if l.pending == [] then [] else l.pending[1..])
      && r.active.Keys == l.active.Keys - {id} + (if l.pending == [] then {} else {l.pending[0].itemId})
      && |r.active| == |l.active| - (if l.pending == [] then 1 else 0)
      && (forall k | k in r.active && k != id && k in l.active :: r.active[k] == l.active[k])
  {
    var rest := l.active - {id};
    assert rest.Keys == l.active.Keys - {id};
    assert |rest| == |l.active| - 1;
    if l.pending != [] {
      var head := l.pending[0];
      assert head.itemId !in rest;
      PromoteOneKeepsConsistent(Listing(rest, l.pending));
      forall k | 0 <= k < |l.pending| - 1
        ensures l.pending[1..][k].itemId != id
      {
        assert l.pending[1..][k] == l.pending[k + 1];
      }
    }
  }

  /** Every id in the catalog was handed out before `next`: it lies in `[1, next)`. */
  predicate IdsBelow(l: Listing, next: int) {
    (forall id | id in l.active :: 1 <= id < next)
    && (forall k | 0 <= k < |l.pending| :: 1 <= l.pending[k].itemId < next)
  }

  /** Selling hands out no new id. */
  lemma SellKeepsIdsBelow(l: Listing, id: int, next: int)
    requires Consistent(l) && IdsBelow(l, next)
    ensures IdsBelow(Sell(l, id), next)
  {
    if id in l.active && l.pending != [] {
      var r := Sell(l, id);
      forall k | 0 <= k < |r.pending|
        ensures 1 <= r.pending[k].itemId < next
      {
        assert r.pending[k] == l.pending[k + 1];
      }
    }
  }

  /** The open items themselves. */
  function OpenItems(active: map<int, AuctionItem>): set<AuctionItem> {
    set id | id in active :: active[id]
  }

  /** There is an open item exactly when some id is open. */
  lemma OpenItemIsListed(active: map<int, AuctionItem>)
    ensures active != map[] <==> OpenItems(active) != {}
  {
    if OpenItems(active) == {} {
      forall id | id in active
        ensures active[id] in OpenItems(active)
      {
      }
      assert active.Keys == {};
      assert active == map[];
    } else {
      var item :| item in OpenItems(active);
    }
  }

  /** The items made for `entries`, in order, numbered from `firstId`. */
  predicate Created(items: seq<AuctionItem>, firstId: int, entries: seq<CatalogEntry>)
  {
    |items| == |entries|
    && forall k | 0 <= k < |items| ::
         items[k].itemId == firstId + k
         && items[k].description == entries[k].description
         && items[k].minimumBid == entries[k].minimumBid
  }

  lemma CreatedAppend(a: seq<AuctionItem>, b: seq<AuctionItem>, firstId: int, ea: seq<CatalogEntry>, eb: seq<CatalogEntry>)
    requires Created(a, firstId, ea) && Created(b, firstId + |a|, eb)
    ensures Created(a + b, firstId, ea + eb)
  {
  }

  /** One more line read: the items made so far and the items made for it are the items made for the longer prefix. */
  lemma ReadStep(lines: seq<string>, i: nat, created: seq<AuctionItem>, added: seq<AuctionItem>, firstId: int)
    requires i < |lines| && !ParseCatalog(lines[..i]).failed
    requires Created(created, firstId, ParseCatalog(lines[..i]).entries)
    requires Created(added, firstId + |created|, Contributes(ClassifyLine(lines[i])))
    ensures ParseCatalog(lines[..i + 1]).failed == ClassifyLine(lines[i]).Malformed?
    ensures Created(created + added, firstId, ParseCatalog(lines[..i + 1]).entries)
  {
    var kind := ClassifyLine(lines[i]);
    ClassifyStep(lines, i);
    CollectStep(Classify(lines[..i]), kind);
    CreatedAppend(created, added, firstId, ParseCatalog(lines[..i]).entries, Contributes(kind));
  }

  /** Where the reading loop stops, at the end or at a malformed line, it has read the whole catalog. */
  lemma ReadToEnd(lines: seq<string>, i: nat, failed: bool, created: seq<AuctionItem>, firstId: int)
    requires i <= |lines| && (i == |lines| || failed)
    requires failed == ParseCatalog(lines[..i]).failed && Created(created, firstId, ParseCatalog(lines[..i]).entries)
    ensures failed == ParseCatalog(lines).failed && Created(created, firstId, ParseCatalog(lines).entries)
  {
    if failed {
      StopsAtFailure(lines, i);
    } else {
      assert lines[..i] == lines;
    }
  }

  /**
   * Regrouping a concatenation. Proved here, in an empty context, because
   * the same equality inside the loading loop makes the solver run out.
   */
  lemma AppendAssoc<T>(a: seq<T>, b: seq<T>, c: seq<T>)
    ensures (a + b) + c == a + (b + c)
  {
  }

  /** The catalog of one auction house. */
  class ItemManager {
    var activeItems: map<int, AuctionItem>
    var pendingItems: seq<AuctionItem>
    var nextItemId: int

    function Listed(): Listing
      reads this
    {
      Listing(activeItems, pendingItems)
    }

    /** The catalog is consistent and every id in it was handed out by this manager, starting from 1. */
    ghost predicate Valid()
      reads this
    {
      Consistent(Listed()) && 1 <= nextItemId && IdsBelow(Listed(), nextItemId)
    }

    constructor ()
      ensures Valid()
      ensures activeItems == map[] && pendingItems == [] && nextItemId == 1
    {
      activeItems := map[];
      pendingItems := [];
      nextItemId := 1;
    }

    /**
     * `loadItemsFromResource`, given the resource's lines: queue one new
     * item per entry line with consecutive ids, then open up to three items
     * from the head of the queue. A minimum bid that is not an int stops the
     * load there: the items read so far stay queued and nothing is opened.
     */
    method LoadItems(lines: seq<string>) returns (failed: bool, ghost created: seq<AuctionItem>)
      requires Valid()
      modifies this
      ensures Valid()
      ensures failed == ParseCatalog(lines).failed
      ensures Created(created, old(nextItemId), ParseCatalog(lines).entries)
      ensures nextItemId == old(nextItemId) + |created|
      ensures var queued := Listing(old(activeItems), old(pendingItems) + created);
        Listed() == if failed then queued else Promote(queued, 3)
    {
      failed, created := QueueItems(lines);
      if !failed {
        OpenQueued();
      }
    }

    /** The reading loop of `loadItemsFromResource`: one new queued item per entry line, in order. */
    method QueueItems(lines: seq<string>) returns (failed: bool, ghost created: seq<AuctionItem>)
      requires Valid()
      modifies this
      ensures Valid()
      ensures failed == ParseCatalog(lines).failed
      ensures Created(created, old(nextItemId), ParseCatalog(lines).entries)
      ensures nextItemId == old(nextItemId) + |created|
      ensures activeItems == old(activeItems) && pendingItems == old(pendingItems) + created
    {
      failed := false;
      created := [];
      var i := 0;
      while i < |lines| && !failed
        invariant 0 <= i <= |lines|
        invariant failed == ParseCatalog(lines[..i]).failed
        invariant Created(created, old(nextItemId), ParseCatalog(lines[..i]).entries)
        invariant nextItemId == old(nextItemId) + |created|
        invariant activeItems == old(activeItems) && pendingItems == old(pendingItems) + created
        invariant Valid()
      {
        var kind := ClassifyLine(lines[i]);
        ghost var added;
        failed, added := QueueLine(kind);
        ReadStep(lines, i, created, added, old(nextItemId));
        AppendAssoc(old(pendingItems), created, added);
        created := created + added;
        i := i + 1;
      }
      ReadToEnd(lines, i, failed, created, old(nextItemId));
    }

    /**
     * What the reading loop does with one classified line: an entry becomes
     * a new item under the next id at the back of the queue; a malformed
     * line stops the loop.
     */
    method QueueLine(kind: LineKind) returns (stop: bool, ghost added: seq<AuctionItem>)
      requires Valid()
      modifies this`nextItemId, this`pendingItems
      ensures Valid()
      ensures stop == kind.Malformed?
      ensures Created(added, old(nextItemId), Contributes(kind)) && fresh(added)
      ensures nextItemId == old(nextItemId) + |added| && pendingItems == old(pendingItems) + added
    {
      stop := kind.Malformed?;
      added := [];
      if kind.Entry? {
        ghost var before := pendingItems;
        var item := new AuctionItem(nextItemId, kind.entry.description, kind.entry.minimumBid);
        nextItemId := nextItemId + 1;
        pendingItems := pendingItems + [item];
        added := [item];
        forall j, k | 0 <= j < k < |pendingItems|
          ensures pendingItems[j].itemId != pendingItems[k].itemId
        {
          assert pendingItems[j] == before[j];
        }
      }
    }

    /** The opening loop of `loadItemsFromResource`: up to three items move from the head of the queue to the open items. */
    method OpenQueued()
      requires Valid()
      modifies this`activeItems, this`pendingItems
      ensures Valid()
      ensures Listed() == Promote(old(Listed()), 3)
    {
      var promoted := 0;
      while promoted < 3 && pendingItems != []
        invariant 0 <= promoted <= 3
        invariant Promote(Listed(), 3 - promoted) == Promote(old(Listed()), 3)
        invariant Valid()
        decreases 3 - promoted
      {
        PromoteOneKeepsConsistent(Listed());
        var item := pendingItems[0];
        pendingItems := pendingItems[1..];
        activeItems := activeItems[item.itemId := item];
        promoted := promoted + 1;
      }
    }

    /** `getAvailableItems`: the open items (the order of the returned list is not modelled). */
    function AvailableItems(): (r: set<AuctionItem>)
      reads this
      requires Valid()
      ensures forall item | item in r :: item.itemId in activeItems && activeItems[item.itemId] == item
      ensures forall id | id in activeItems :: activeItems[id] in r
    {
      OpenItems(activeItems)
    }

    /** `getItem`: the open item with that id, or null; queued, sold and unknown ids give null. */
    function GetItem(itemId: int): (r: AuctionItem?)
      reads this
      requires Valid()
      ensures r != null <==> itemId in activeItems
      ensures itemId in activeItems ==> r == activeItems[itemId]
      ensures r != null ==> r.itemId == itemId
      ensures itemId in Ids(pendingItems) ==> r == null
    {
      if itemId in activeItems then activeItems[itemId] else null
    }

    /**
     * `markItemAsSold`: an open item is closed and flagged sold, and the
     * head of the queue, if any, is opened; any other id changes nothing.
     */
    method MarkItemAsSold(itemId: int)
      requires Valid()
      modifies this, (if itemId in activeItems then {activeItems[itemId]} else {})
      ensures Valid()
      ensures Listed() == Sell(old(Listed()), itemId)
      ensures nextItemId == old(nextItemId)
      ensures itemId in old(activeItems) ==>
        old(activeItems)[itemId].Bidding() == AfterSale(old(activeItems[itemId].Bidding()))
      ensures itemId in old(activeItems) ==> old(activeItems)[itemId].active == old(activeItems[itemId].active)
    {
      if itemId in activeItems {
        var sold := activeItems[itemId];
        activeItems := activeItems - {itemId};
        sold.MarkAsSold();
        if pendingItems != [] {
          var next := pendingItems[0];
          pendingItems := pendingItems[1..];
          activeItems := activeItems[next.itemId := next];
        }
        SellSpec(old(Listed()), itemId);
        SellKeepsIdsBelow(old(Listed()), itemId, nextItemId);
      }
    }

    /** `hasActiveAuctions`: whether any item is open, whether or not anyone has bid on it. */
    function HasActiveAuctions(): (r: bool)
      reads this
      requires Valid()
      ensures r <==> AvailableItems() != {}
    {
      OpenItemIsListed(activeItems);
      activeItems != map[]
    }
  }
}
