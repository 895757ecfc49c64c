/** Cursor paging over a list that changes between reads: `TrustList::page`
    and `PeerList::page` in crates/api/ipc-protocol/src/result.rs, which differ
    only in what a row carries and how many fit. */
module Paging {
  import opened Common
  import opened PeerOrder

  datatype TrustSource = Configured | Administered

  datatype PeerOutcome = Connected | DialFailed | IdentityMismatch | Denied

  /** What a row says of its peer. */
  datatype Info =
    | Trust(persisted: bool, source: TrustSource)
    | Gate(connected: bool, backoffUntil: Option<nat>, quarantinedUntil: Option<nat>, lastOutcome: Option<PeerOutcome>)

  datatype Row = Row(peer: Peer, info: Info)

  /** Where a page begins: a position, not a row. */
  datatype Cursor = Beginning | Past(peer: Peer) {
    predicate Before(p: Peer) {
      Beginning? || Less(peer, p)
    }
  }

  datatype Page = Page(rows: seq<Row>, next: Option<Peer>)

  /** What a listing says of each peer: the first row that names it. */
  function Says(rows: seq<Row>): map<Peer, Row> {
    if rows == [] then map[] else Says(rows[1..])[rows[0].peer := rows[0]]
  }

  lemma {:induction false} SaysConcat(a: seq<Row>, b: seq<Row>)
    ensures Says(a + b) == Says(b) + Says(a)
  {
    if a == [] {
      assert a + b == b;
    } else {
      assert (a + b)[1..] == a[1..] + b;
      SaysConcat(a[1..], b);
    }
  }

  lemma {:induction false} SaysOnlyListed(rows: seq<Row>, p: Peer) returns (i: nat)
    requires p in Says(rows)
    ensures i < |rows| && rows[i].peer == p && Says(rows)[p] == rows[i]
  {
    if rows[0].peer == p {
      i := 0;
    } else {
      i := SaysOnlyListed(rows[1..], p);
      i := i + 1;
    }
  }

  lemma {:induction false} SaysAllListed(rows: seq<Row>, i: nat)
    requires i < |rows|
    ensures rows[i].peer in Says(rows)
  {
    if i > 0 {
      SaysAllListed(rows[1..], i - 1);
    }
  }

  // -----------------------------------------------------------------
  // Order

  /** Strictly ascending by peer, which is unique too. */
  ghost predicate Ascending(rows: seq<Row>) {
    forall i, j :: 0 <= i < j < |rows| ==> Less(rows[i].peer, rows[j].peer)
  }

  /** Every row of `b` comes after every row of `a`. */
  lemma AscendingConcat(a: seq<Row>, b: seq<Row>)
    requires Ascending(a) && Ascending(b)
    requires a != [] ==> forall i :: 0 <= i < |b| ==> Less(a[|a| - 1].peer, b[i].peer)
    ensures Ascending(a + b)
  {
    var s := a + b;
    forall i, j | 0 <= i < j < |s|
      ensures Less(s[i].peer, s[j].peer)
    {
      if i < |a| - 1 && |a| <= j {
        Transitive(a[i].peer, a[|a| - 1].peer, b[j - |a|].peer);
      }
    }
  }

  /** An ascending list names no peer twice. */
  lemma {:induction false} SaysAscending(rows: seq<Row>, i: nat)
    requires Ascending(rows) && i < |rows|
    ensures rows[i].peer in Says(rows) && Says(rows)[rows[i].peer] == rows[i]
  {
    if i > 0 {
      Asymmetric(rows[0].peer, rows[i].peer);
      assert rows[1..][i - 1] == rows[i];
      SaysAscending(rows[1..], i - 1);
    }
  }

  // -----------------------------------------------------------------
  // The stable sort

  ghost predicate NonDescending(rows: seq<Row>) {
    forall i, j :: 0 <= i < j < |rows| ==> !Less(rows[j].peer, rows[i].peer)
  }

  function Insert(row: Row, sorted: seq<Row>): seq<Row> {
    if sorted == [] || !Less(sorted[0].peer, row.peer) then [row] + sorted
    else [sorted[0]] + Insert(row, sorted[1..])
  }

  function SortByPeer(rows: seq<Row>): seq<Row> {
    if rows == [] then [] else Insert(rows[0], SortByPeer(rows[1..]))
  }

  lemma NotAfterThenLess(a: Peer, b: Peer, c: Peer)
    requires !Less(b, a) && Less(b, c)
    ensures Less(a, c)
  {
    Total(a, b);
    if a != b {
      Transitive(a, b, c);
    }
  }

  /** Nothing in `rows` comes before `p`. */
  ghost predicate NoneBefore(rows: seq<Row>, p: Peer) {
    forall i :: 0 <= i < |rows| ==> !Less(rows[i].peer, p)
  }

  lemma {:induction false} InsertKeepsOrder(row: Row, sorted: seq<Row>, floor: Peer)
    requires NonDescending(sorted) && NoneBefore(sorted, floor) && !Less(row.peer, floor)
    ensures NonDescending(Insert(row, sorted)) && NoneBefore(Insert(row, sorted), floor)
    ensures multiset(Insert(row, sorted)) == multiset(sorted) + multiset{row}
  {
    if sorted == [] {
    } else if !Less(sorted[0].peer, row.peer) {
      forall j | 0 <= j < |sorted|
        ensures !Less(sorted[j].peer, row.peer)
      {
        if Less(sorted[j].peer, row.peer) {
          NotAfterThenLess(sorted[0].peer, sorted[j].peer, row.peer);
        }
      }
    } else {
      Irreflexive(sorted[0].peer);
      Asymmetric(sorted[0].peer, row.peer);
      InsertKeepsOrder(row, sorted[1..], sorted[0].peer);
      assert NoneBefore([sorted[0]] + Insert(row, sorted[1..]), floor) by {
        InsertKeepsOrder(row, sorted[1..], floor);
      }
      assert sorted == [sorted[0]] + sorted[1..];
    }
  }

  /** Inserted before its equals, the row is the first of its peer, and no
      other peer's first row changes. */
  lemma {:induction false} InsertIsFirst(row: Row, sorted: seq<Row>)
    ensures Says(Insert(row, sorted)) == Says(sorted)[row.peer := row]
  {
    if sorted != [] && Less(sorted[0].peer, row.peer) {
      InsertIsFirst(row, sorted[1..]);
      Asymmetric(sorted[0].peer, row.peer);
    } else {
      assert ([row] + sorted)[1..] == sorted;
    }
  }

  /** The sort orders the rows, keeps them all, and is stable: each peer's
      first row stays its first. */
  lemma {:induction false} SortIsStable(rows: seq<Row>)
    ensures NonDescending(SortByPeer(rows))
    ensures multiset(SortByPeer(rows)) == multiset(rows)
    ensures Says(SortByPeer(rows)) == Says(rows)
  {
    if rows != [] {
      SortIsStable(rows[1..]);
      InsertKeepsOrder(rows[0], SortByPeer(rows[1..]), "");
      InsertIsFirst(rows[0], SortByPeer(rows[1..]));
      assert rows == [rows[0]] + rows[1..];
    }
  }

  // -----------------------------------------------------------------
  // One page

  /** Each row is past the cursor and what the view says of its peer. */
  ghost predicate OnlyListed(says: map<Peer, Row>, cursor: Cursor, rows: seq<Row>) {
    forall p :: p in Says(rows) ==> cursor.Before(p) && p in says && says[p] == Says(rows)[p]
  }

  /** Nothing past the cursor is skipped: it is on the page, or after it. */
  ghost predicate NothingSkipped(says: map<Peer, Row>, cursor: Cursor, page: Page) {
    forall p :: p in says && cursor.Before(p) ==>
      p in Says(page.rows) || (page.next.Some? && Less(page.next.value, p))
  }

  /** `next` is the last row's peer, of a full page, when more remain. */
  ghost predicate MoreRemain(says: map<Peer, Row>, max: nat, page: Page) {
    && |page.rows| == max > 0
    && page.next == Some(page.rows[max - 1].peer)
    && exists p :: p in says && Less(page.rows[max - 1].peer, p)
  }

  /** `page` is the page of `view` after `cursor`. */
  ghost predicate IsPage(view: seq<Row>, cursor: Cursor, max: nat, page: Page) {
    && |page.rows| <= max
    && Ascending(page.rows)
    && OnlyListed(Says(view), cursor, page.rows)
    && NothingSkipped(Says(view), cursor, page)
    && (page.next.Some? ==> MoreRemain(Says(view), max, page))
  }

  /** Adjacent rows of one peer collapse to the first. */
  method Dedup(sorted: seq<Row>) returns (unique: seq<Row>)
    requires NonDescending(sorted)
    ensures Ascending(unique) && Says(unique) == Says(sorted)
  {
    unique := [];
    var i := 0;
    while i < |sorted|
      invariant 0 <= i <= |sorted|
      invariant Ascending(unique) && Says(unique) == Says(sorted[..i])
      invariant if i == 0 then unique == [] else unique != [] && unique[|unique| - 1].peer == sorted[i - 1].peer
    {
      DedupStep(sorted, i, unique);
      if i == 0 || sorted[i].peer != sorted[i - 1].peer {
        unique := unique + [sorted[i]];
      }
      i := i + 1;
    }
    assert sorted[..i] == sorted;
  }

  lemma DedupStep(sorted: seq<Row>, i: nat, unique: seq<Row>)
    requires NonDescending(sorted) && i < |sorted|
    requires Ascending(unique) && Says(unique) == Says(sorted[..i])
    requires if i == 0 then unique == [] else unique != [] && unique[|unique| - 1].peer == sorted[i - 1].peer
    ensures var kept := if i == 0 || sorted[i].peer != sorted[i - 1].peer then unique + [sorted[i]] else unique;
            Ascending(kept) && Says(kept) == Says(sorted[..i + 1])
  {
    var row := sorted[i];
    assert sorted[..i + 1] == sorted[..i] + [row];
    SaysConcat(sorted[..i], [row]);
    if i == 0 || row.peer != sorted[i - 1].peer {
      if i > 0 {
        Total(sorted[i - 1].peer, row.peer);
      }
      AscendingConcat(unique, [row]);
      SaysConcat(unique, [row]);
    } else {
      SaysAllListed(unique, |unique| - 1);
    }
  }

  /** The rows past the cursor. In an ordered list they are its tail. */
  method Filter(unique: seq<Row>, cursor: Cursor) returns (rest: seq<Row>, ghost k: nat)
    requires Ascending(unique)
    ensures k <= |unique| && rest == unique[k..]
    ensures forall j :: 0 <= j < |unique| ==> (cursor.Before(unique[j].peer) <==> k <= j)
    ensures forall row :: row in rest <==> row in unique && cursor.Before(row.peer)
  {
    rest, k := [], 0;
    var i := 0;
    while i < |unique|
      invariant 0 <= k <= i <= |unique|
      invariant rest == unique[k..i]
      invariant forall j :: 0 <= j < i ==> (cursor.Before(unique[j].peer) <==> k <= j)
    {
      if cursor.Before(unique[i].peer) {
        rest := rest + [unique[i]];
      } else {
        if k < i {
          StaysPast(unique, cursor, k, i);
        }
        k := i + 1;
      }
      i := i + 1;
    }
  }

  /** The page of `view` that follows `cursor`, at most `max` rows. */
  method TakePage(view: seq<Row>, cursor: Cursor, max: nat) returns (page: Page)
    requires max > 0
    ensures IsPage(view, cursor, max, page)
  {
    SortIsStable(view);
    var unique := Dedup(SortByPeer(view));
    ghost var k;
    var rest;
    rest, k := Filter(unique, cursor);
    var rows := rest[..Min(max, |rest|)];
    page := Page(rows, if |rest| > max then Some(rows[|rows| - 1].peer) else None);
    PageOfUnique(view, unique, cursor, max, k, k + |rows|, page);
  }

  lemma StaysPast(unique: seq<Row>, cursor: Cursor, k: nat, j: nat)
    requires Ascending(unique) && k <= j < |unique| && cursor.Before(unique[k].peer)
    ensures cursor.Before(unique[j].peer)
  {
    if cursor.Past? && k < j {
      Transitive(cursor.peer, unique[k].peer, unique[j].peer);
    }
  }

  /** The rows `k..end` of the ordered view: those past the cursor, up to a
      full page. */
  ghost predicate Cut(unique: seq<Row>, cursor: Cursor, max: nat, k: nat, end: nat) {
    && Ascending(unique)
    && k <= end <= |unique| && end - k <= max
    && (end < |unique| ==> end - k == max > 0)
    && forall j :: 0 <= j < |unique| ==> (cursor.Before(unique[j].peer) <==> k <= j)
  }

  lemma CutKeepsAll(unique: seq<Row>, cursor: Cursor, max: nat, k: nat, end: nat, p: Peer)
    requires Cut(unique, cursor, max, k, end) && p in Says(unique) && cursor.Before(p)
    ensures p in Says(unique[k..end]) || (end < |unique| && Less(unique[end - 1].peer, p))
  {
    var j := SaysOnlyListed(unique, p);
    assert k <= j;
    CutAt(unique, k, end, j);
  }

  lemma CutAt(unique: seq<Row>, k: nat, end: nat, j: nat)
    requires Ascending(unique) && k <= j < |unique| && k <= end <= |unique| && (k == end ==> end == |unique|)
    ensures unique[j].peer in Says(unique[k..end]) || (k < end <= j && Less(unique[end - 1].peer, unique[j].peer))
  {
    if j < end {
      SaysAllListed(unique[k..end], j - k);
    }
  }

  lemma CutKeepsOnly(unique: seq<Row>, cursor: Cursor, max: nat, k: nat, end: nat, p: Peer)
    requires Cut(unique, cursor, max, k, end) && p in Says(unique[k..end])
    ensures cursor.Before(p) && p in Says(unique) && Says(unique)[p] == Says(unique[k..end])[p]
  {
    var i := SaysOnlyListed(unique[k..end], p);
    SaysAscending(unique, k + i);
  }

  lemma CutRemains(unique: seq<Row>, cursor: Cursor, max: nat, k: nat, end: nat, page: Page)
    requires Cut(unique, cursor, max, k, end) && end < |unique|
    requires page == Page(unique[k..end], Some(unique[end - 1].peer))
    ensures MoreRemain(Says(unique), max, page)
  {
    SaysAllListed(unique, end);
    assert unique[end].peer in Says(unique) && Less(unique[end - 1].peer, unique[end].peer);
  }

  lemma PageOfUnique(view: seq<Row>, unique: seq<Row>, cursor: Cursor, max: nat, k: nat, end: nat, page: Page)
    requires Says(unique) == Says(view) && Cut(unique, cursor, max, k, end)
    requires page == Page(unique[k..end], if end < |unique| then Some(unique[end - 1].peer) else None)
    ensures IsPage(view, cursor, max, page)
  {
    assert OnlyListed(Says(view), cursor, page.rows) by {
      forall p | p in Says(page.rows)
        ensures cursor.Before(p) && p in Says(view) && Says(view)[p] == Says(page.rows)[p]
      {
        CutKeepsOnly(unique, cursor, max, k, end, p);
      }
    }
    assert NothingSkipped(Says(view), cursor, page) by {
      forall p | p in Says(view) && cursor.Before(p)
        ensures p in Says(page.rows) || (page.next.Some? && Less(page.next.value, p))
      {
        CutKeepsAll(unique, cursor, max, k, end, p);
      }
    }
    if end < |unique| {
      CutRemains(unique, cursor, max, k, end, page);
    }
  }
}
