/** The two lists the admin socket pages, and what their reader checks
    (crates/api/ipc-protocol/src/result.rs). */
module PagedLists {
  import opened Common
  import opened PeerOrder
  import opened Paging

  const MAX_TRUST_PAGE_ROWS: nat := 1024
  const MAX_PEER_PAGE_ROWS: nat := 512
  const TRUST_SOURCE_SINCE_MINOR: nat := 3

  datatype TrustRow = TrustRow(peer: Peer, persisted: bool, source: Option<TrustSource>)

  datatype TrustList = TrustList(localPeer: Option<Peer>, allowed: seq<TrustRow>, next: Option<Peer>)

  /** A row in the shape its connection's minor negotiated. */
  function TrustRowAt(row: Row, minor: nat): (wire: TrustRow)
    requires row.info.Trust?
    ensures wire.peer == row.peer && wire.persisted == wire.source.Some?
    ensures minor < 3 || !row.info.persisted ==> wire == TrustRow(row.peer, false, None)
    ensures minor >= 3 && row.info.persisted ==> wire == TrustRow(row.peer, true, Some(row.info.source))
  {
    var persisted := minor >= TRUST_SOURCE_SINCE_MINOR && row.info.persisted;
    TrustRow(row.peer, persisted, if persisted then Some(row.info.source) else None)
  }

  /** What the reader of a trust page refuses otherwise: its bound, its order
      neighbour by neighbour, and a source exactly on a persisted row. */
  ghost predicate TrustListAccepted(list: TrustList) {
    && |list.allowed| <= 1024
    && (forall i, j :: 0 <= i < j == i + 1 < |list.allowed| ==> Less(list.allowed[i].peer, list.allowed[j].peer))
    && (forall i :: 0 <= i < |list.allowed| ==> list.allowed[i].persisted == list.allowed[i].source.Some?)
  }

  ghost predicate PeerListAccepted(page: Page) {
    && |page.rows| <= 512
    && (forall i, j :: 0 <= i < j == i + 1 < |page.rows| ==> Less(page.rows[i].peer, page.rows[j].peer))
  }

  /** `admin.trust.list`: one page of the allowlist, the local peer on the
      first only. */
  method TrustPage(localPeer: Option<Peer>, allowed: seq<Row>, cursor: Cursor, minor: nat)
    returns (list: TrustList, ghost page: Page)
    requires forall i :: 0 <= i < |allowed| ==> allowed[i].info.Trust?
    ensures IsPage(allowed, cursor, MAX_TRUST_PAGE_ROWS, page)
    ensures |list.allowed| == |page.rows| && list.next == page.next
    ensures forall i :: 0 <= i < |page.rows| ==>
              page.rows[i].info.Trust? && list.allowed[i] == TrustRowAt(page.rows[i], minor)
    ensures list.localPeer == if cursor.Beginning? then localPeer else None
    ensures TrustListAccepted(list)
  {
    var taken := TakePage(allowed, cursor, MAX_TRUST_PAGE_ROWS);
    page := taken;
    var rows := [];
    var i := 0;
    while i < |taken.rows|
      invariant 0 <= i == |rows| <= |taken.rows|
      invariant forall j :: 0 <= j < i ==>
                  taken.rows[j].info.Trust? && rows[j] == TrustRowAt(taken.rows[j], minor)
    {
      PageRowIsListed(allowed, cursor, MAX_TRUST_PAGE_ROWS, taken, i);
      rows := rows + [TrustRowAt(taken.rows[i], minor)];
      i := i + 1;
    }
    list := TrustList(if cursor.Beginning? then localPeer else None, rows, taken.next);
  }

  lemma PageRowIsListed(view: seq<Row>, cursor: Cursor, max: nat, page: Page, i: nat)
    requires IsPage(view, cursor, max, page) && i < |page.rows|
    ensures exists k :: 0 <= k < |view| && view[k] == page.rows[i]
  {
    SaysAscending(page.rows, i);
    var k := SaysOnlyListed(view, page.rows[i].peer);
    assert view[k] == page.rows[i];
  }

  /** `admin.peers.list`: one page of the dial gate's state. */
  method PeerPage(peers: seq<Row>, cursor: Cursor) returns (page: Page)
    ensures IsPage(peers, cursor, MAX_PEER_PAGE_ROWS, page)
    ensures PeerListAccepted(page)
  {
    page := TakePage(peers, cursor, MAX_PEER_PAGE_ROWS);
  }
}
