/** Reading a list page by page while it changes: what following `next` gives
    a reader, over every sequence of views the reads may meet. */
module PageWalk {
  import opened Common
  import opened PeerOrder
  import opened Paging

  /** Everything read, in order. */
  ghost function Read(pages: seq<Page>): seq<Row> {
    if pages == [] then [] else Read(pages[..|pages| - 1]) + pages[|pages| - 1].rows
  }

  /** Where the read after `pages` begins. */
  ghost function CursorAfter(pages: seq<Page>): Cursor
    requires pages != [] ==> pages[|pages| - 1].next.Some?
  {
    if pages == [] then Beginning else Past(pages[|pages| - 1].next.value)
  }

  /** `pages` answer one reader following `next`, each read against the view
      of its own moment. */
  ghost predicate Walk(views: seq<seq<Row>>, pages: seq<Page>, max: nat) {
    && |views| == |pages|
    && (pages == [] ||
        var n := |pages| - 1;
        && Walk(views[..n], pages[..n], max)
        && (n > 0 ==> pages[n - 1].next.Some?)
        && IsPage(views[n], CursorAfter(pages[..n]), max, pages[n]))
  }

  /** Every page the reader meets was asked after one that said more remain. */
  lemma {:induction false} WalkAscends(views: seq<seq<Row>>, pages: seq<Page>, max: nat)
    requires Walk(views, pages, max)
    ensures Ascending(Read(pages))
    ensures pages != [] && pages[|pages| - 1].next.Some? ==>
              Read(pages) != [] && Read(pages)[|Read(pages)| - 1].peer == pages[|pages| - 1].next.value
  {
    if pages != [] {
      var n := |pages| - 1;
      var before, rows := Read(pages[..n]), pages[n].rows;
      WalkAscends(views[..n], pages[..n], max);
      forall i | 0 <= i < |rows| && before != []
        ensures Less(before[|before| - 1].peer, rows[i].peer)
      {
        SaysAllListed(rows, i);
        assert CursorAfter(pages[..n]).Before(rows[i].peer);
        assert n > 0;
      }
      AscendingConcat(before, rows);
    }
  }

  /** A peer listed in every view read is read by the time the pages end. */
  lemma {:induction false} WalkMissesNone(views: seq<seq<Row>>, pages: seq<Page>, max: nat, p: Peer)
    requires Walk(views, pages, max) && pages != []
    requires forall i :: 0 <= i < |views| ==> p in Says(views[i])
    ensures p in Says(Read(pages)) || (pages[|pages| - 1].next.Some? && Less(pages[|pages| - 1].next.value, p))
  {
    var n := |pages| - 1;
    SaysConcat(Read(pages[..n]), pages[n].rows);
    if n > 0 {
      WalkMissesNone(views[..n], pages[..n], max, p);
    }
    assert p in Says(views[n]);
  }

  /** Nothing is read that a view did not list: each row is what the view of
      its own read said. */
  lemma {:induction false} WalkInventsNone(views: seq<seq<Row>>, pages: seq<Page>, max: nat, k: nat) returns (i: nat)
    requires Walk(views, pages, max) && k < |Read(pages)|
    ensures i < |views| && Read(pages)[k].peer in Says(views[i])
    ensures Says(views[i])[Read(pages)[k].peer] == Read(pages)[k]
  {
    var n := |pages| - 1;
    var before := Read(pages[..n]);
    if k < |before| {
      i := WalkInventsNone(views[..n], pages[..n], max, k);
    } else {
      i := n;
      SaysAscending(pages[n].rows, k - |before|);
    }
  }

  /** The reader's result: once the pages end, everything read is in strictly
      ascending order, and each peer that every view listed was read exactly
      once. */
  lemma WalkIsComplete(views: seq<seq<Row>>, pages: seq<Page>, max: nat, p: Peer)
    requires Walk(views, pages, max) && pages != [] && pages[|pages| - 1].next.None?
    requires forall i :: 0 <= i < |views| ==> p in Says(views[i])
    ensures Ascending(Read(pages))
    ensures exists k :: 0 <= k < |Read(pages)| && Read(pages)[k].peer == p
                        && forall j :: 0 <= j < |Read(pages)| && Read(pages)[j].peer == p ==> j == k
  {
    var all := Read(pages);
    WalkAscends(views, pages, max);
    WalkMissesNone(views, pages, max, p);
    var k := SaysOnlyListed(all, p);
    forall j | 0 <= j < |all| && all[j].peer == p
      ensures j == k
    {
      Irreflexive(p);
    }
  }

  // -----------------------------------------------------------------
  // How long a walk can be

  lemma {:induction false} AscendingIsUnique(rows: seq<Row>)
    requires Ascending(rows)
    ensures |Says(rows).Keys| == |rows|
  {
    if rows != [] {
      AscendingIsUnique(rows[1..]);
      if rows[0].peer in Says(rows[1..]) {
        var i := SaysOnlyListed(rows[1..], rows[0].peer);
        Irreflexive(rows[0].peer);
      }
      assert Says(rows).Keys == Says(rows[1..]).Keys + {rows[0].peer};
    }
  }

  lemma {:induction false} FullPages(views: seq<seq<Row>>, pages: seq<Page>, max: nat)
    requires Walk(views, pages, max)
    requires pages != [] ==> pages[|pages| - 1].next.Some?
    ensures |Read(pages)| == |pages| * max
  {
    if pages != [] {
      var n := |pages| - 1;
      FullPages(views[..n], pages[..n], max);
      assert |pages[n].rows| == max;
      OneMore(n, max);
    }
  }

  lemma OneMore(n: nat, max: nat)
    ensures (n + 1) * max == n * max + max
  {
  }

  lemma {:induction false} ReadWithin(views: seq<seq<Row>>, pages: seq<Page>, max: nat, universe: set<Peer>)
    requires Walk(views, pages, max)
    requires forall i :: 0 <= i < |views| ==> Says(views[i]).Keys <= universe
    ensures Says(Read(pages)).Keys <= universe
  {
    forall p | p in Says(Read(pages))
      ensures p in universe
    {
      var k := SaysOnlyListed(Read(pages), p);
      var i := WalkInventsNone(views, pages, max, k);
    }
  }

  /** However the list changes, a reader of peers from a finite universe ends:
      every page but the last is full of peers never read before, and the one
      before the last left a peer unread. */
  lemma WalkIsShort(views: seq<seq<Row>>, pages: seq<Page>, max: nat, universe: set<Peer>)
    requires Walk(views, pages, max) && |pages| >= 2
    requires forall i :: 0 <= i < |views| ==> Says(views[i]).Keys <= universe
    ensures (|pages| - 1) * max < |universe|
  {
    var n := |pages| - 1;
    var vs, ps := views[..n], pages[..n];
    var before := Read(ps);
    FullPages(vs, ps, max);
    WalkAscends(vs, ps, max);
    AscendingIsUnique(before);
    ReadWithin(vs, ps, max, universe);
    var last := ps[n - 1];
    assert IsPage(vs[n - 1], CursorAfter(ps[..n - 1]), max, last);
    var p :| p in Says(vs[n - 1]) && Less(last.rows[max - 1].peer, p);
    if p in Says(before) {
      var k := SaysOnlyListed(before, p);
      Asymmetric(before[|before| - 1].peer, p);
    }
    Smaller(Says(before).Keys, universe, p);
  }

  lemma Smaller(a: set<Peer>, b: set<Peer>, p: Peer)
    requires a <= b && p in b && p !in a
    ensures |a| < |b|
  {
    assert b == (b - a) + a;
    assert p in b - a;
  }
}
