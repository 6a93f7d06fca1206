/**
 The conversation list a client sees: the direct-message routes of one peer become one entry.
 */
module Conversations {
  import opened Options
  import opened MessageText
  import opened NodeIds

  datatype Kind = Public | Dm | Other

  /** A conversation; empty strings stand for absent ones. */
  datatype Item = Item(
    kind: Kind, channelKey: string, peerNode: string, conversation: string, sendable: bool,
    lastId: Option<int>, lastTime: Option<string>, lastText: Option<string>, unread: Option<int>,
    merged: Option<seq<string>>)

  function OrZero(n: Option<int>): int {
    if n.Some? then n.value else 0
  }

  function OrEmpty(s: Option<string>): string {
    if s.Some? then s.value else ""
  }

  predicate IsOldPublic(item: Item) {
    item.kind == Public && StartsWith(item.channelKey, "legacy:")
  }

  function PeerOf(item: Item): string {
    Lower(if item.peerNode != "" then item.peerNode else item.conversation)
  }

  predicate StringLess(a: string, b: string) {
    b != [] && (a == [] || a[0] < b[0] || (a[0] == b[0] && StringLess(a[1..], b[1..])))
  }

  /** A later message: by ID, then by time. */
  predicate Older(a: Item, b: Item) {
    || OrZero(a.lastId) < OrZero(b.lastId)
    || (OrZero(a.lastId) == OrZero(b.lastId) && StringLess(OrEmpty(a.lastTime), OrEmpty(b.lastTime)))
  }

  /** The three yes-or-no parts of a route's priority, most important first. */
  function Rank(item: Item, preferred: string): int {
    (if item.sendable then 4 else 0) + (if item.conversation == preferred then 2 else 0)
    + if StartsWith(item.conversation, "dm:") then 1 else 0
  }

  /** The second route has higher priority. */
  function LowerPriority(preferred: string): (Item, Item) -> bool {
    (a: Item, b: Item) => Rank(a, preferred) < Rank(b, preferred) || (Rank(a, preferred) == Rank(b, preferred) && Older(a, b))
  }

  /** The first item that none of the others beats. */
  function Best(routes: seq<Item>, less: (Item, Item) -> bool): Item
    requires routes != []
  {
    var last := routes[|routes| - 1];
    if |routes| == 1 then last
    else
      var best := Best(routes[..|routes| - 1], less);
      if less(best, last) then last else best
  }

  function Routes(items: seq<Item>, peer: string): seq<Item> {
    if items == [] then []
    else
      var last, before := items[|items| - 1], Routes(items[..|items| - 1], peer);
      if last.kind == Dm && PeerOf(last) == peer then before + [last] else before
  }

  function SumUnread(items: seq<Item>): int {
    if items == [] then 0 else SumUnread(items[..|items| - 1]) + OrZero(items[|items| - 1].unread)
  }

  /** The conversations of the routes other than the selected one. */
  function OtherRoutes(routes: seq<Item>, selected: string): seq<string> {
    if routes == [] then []
    else
      var last, before := routes[|routes| - 1], OtherRoutes(routes[..|routes| - 1], selected);
      if last.conversation != selected then before + [last.conversation] else before
  }

  /** The selected route with the newest message and the totals of all routes. */
  function Merged(selected: Item, routes: seq<Item>): Item
    requires routes != []
  {
    var newest := Best(routes, Older);
    selected.(lastId := newest.lastId, lastTime := newest.lastTime, lastText := newest.lastText,
              unread := Some(SumUnread(routes)), merged := Some(OtherRoutes(routes, selected.conversation)))
  }

  function Merge(routes: seq<Item>, preferred: string): Item
    requires routes != []
  {
    Merged(Best(routes, LowerPriority(preferred)), routes)
  }

  // ---------- What the list must be ----------

  /** Item i is a route of the peer. */
  predicate IsOf(items: seq<Item>, i: nat, peer: string)
    requires i < |items|
  {
    items[i].kind == Dm && PeerOf(items[i]) == peer
  }

  /** Item i makes an entry: it is no old public channel, and no earlier route of its peer exists. */
  predicate Shown(items: seq<Item>, i: nat) {
    && i < |items| && !IsOldPublic(items[i])
    && (items[i].kind == Dm ==> forall j | 0 <= j < i :: !IsOf(items, j, PeerOf(items[i])))
  }

  function ShownIndexes(items: seq<Item>): (indexes: seq<nat>)
    ensures forall k | 0 <= k < |indexes| :: indexes[k] < |items|
  {
    if items == [] then []
    else
      var before := ShownIndexes(items[..|items| - 1]);
      if Shown(items, |items| - 1) then before + [|items| - 1] else before
  }

  lemma {:induction false} RoutesHas(items: seq<Item>, i: nat)
    requires i < |items| && items[i].kind == Dm
    ensures items[i] in Routes(items, PeerOf(items[i]))
  {
    if i < |items| - 1 {
      RoutesHas(items[..|items| - 1], i);
    }
  }

  /** The routes of the peer of item i. */
  function RoutesOf(items: seq<Item>, i: nat): (routes: seq<Item>)
    requires i < |items| && items[i].kind == Dm
    ensures routes == Routes(items, PeerOf(items[i])) && routes != []
  {
    RoutesHas(items, i);
    Routes(items, PeerOf(items[i]))
  }

  /** The entry item i leads to. */
  function Entry(items: seq<Item>, i: nat, preferred: string): Item
    requires i < |items|
  {
    if items[i].kind == Dm then Merge(RoutesOf(items, i), preferred) else items[i]
  }

  function Visible(items: seq<Item>, preferred: string): seq<Item> {
    var indexes := ShownIndexes(items);
    seq(|indexes|, k requires 0 <= k < |indexes| => Entry(items, indexes[k], preferred))
  }

  /** While the routes are being collected an entry of a peer is its best route so far. */
  function Draft(items: seq<Item>, i: nat, preferred: string): Item
    requires i < |items|
  {
    if items[i].kind == Dm then Best(RoutesOf(items, i), LowerPriority(preferred)) else items[i]
  }

  lemma ShownInPrefix(items: seq<Item>, init: seq<Item>, i: nat)
    requires i < |init| <= |items| && init == items[..|init|]
    ensures Shown(items, i) == Shown(init, i)
  {
    forall j | 0 <= j <= i ensures IsOf(items, j, PeerOf(items[i])) == IsOf(init, j, PeerOf(init[i])) {
      assert items[j] == init[j];
    }
  }

  ghost predicate Ascends(indexes: seq<nat>) {
    forall k, l | 0 <= k < l < |indexes| :: indexes[k] < indexes[l]
  }

  lemma {:induction false} IndexesAscend(items: seq<Item>)
    ensures Ascends(ShownIndexes(items))
  {
    if items != [] {
      IndexesAscend(items[..|items| - 1]);
      AppendAscends(ShownIndexes(items[..|items| - 1]), |items| - 1);
    }
  }

  lemma AppendAscends(indexes: seq<nat>, n: nat)
    requires Ascends(indexes) && forall k | 0 <= k < |indexes| :: indexes[k] < n
    ensures Ascends(indexes + [n])
  {
  }

  lemma {:induction false} IndexIffShown(items: seq<Item>, i: nat)
    ensures i in ShownIndexes(items) <==> Shown(items, i)
  {
    if items != [] {
      var n := |items| - 1;
      IndexIffShown(items[..n], i);
      assert i in ShownIndexes(items) <==> i in ShownIndexes(items[..n]) || (i == n && Shown(items, n));
      if i < n {
        ShownInPrefix(items, items[..n], i);
      }
    }
  }

  lemma IndexFacts(items: seq<Item>)
    ensures var indexes := ShownIndexes(items);
            Ascends(indexes) && forall i: nat :: i in indexes <==> Shown(items, i)
  {
    IndexesAscend(items);
    forall i: nat ensures i in ShownIndexes(items) <==> Shown(items, i) {
      IndexIffShown(items, i);
    }
  }

  /** Every peer with a route has exactly one shown index: its first route. */
  lemma PeerIsShownOnce(items: seq<Item>, i: nat)
    requires i < |items| && items[i].kind == Dm
    ensures exists j: nat :: Shown(items, j) && IsOf(items, j, PeerOf(items[i]))
    ensures forall j: nat, k: nat | Shown(items, j) && Shown(items, k) && IsOf(items, j, PeerOf(items[i])) && IsOf(items, k, PeerOf(items[i])) ::
              j == k
  {
    if !Shown(items, i) {
      var j: nat :| j < i && items[j].kind == Dm && PeerOf(items[j]) == PeerOf(items[i]);
      PeerIsShownOnce(items, j);
    }
  }

  // ---------- The list as it is built ----------

  /** The list of the first loop after the items seen so far. */
  ghost predicate Drafted(items: seq<Item>, preferred: string, visible: seq<Item>) {
    var indexes := ShownIndexes(items);
    |visible| == |indexes| && forall k | 0 <= k < |indexes| :: visible[k] == Draft(items, indexes[k], preferred)
  }

  /** The peers that have a route. */
  ghost function Peers(items: seq<Item>): set<string> {
    if items == [] then {}
    else
      var last, before := items[|items| - 1], Peers(items[..|items| - 1]);
      if last.kind == Dm then before + {PeerOf(last)} else before
  }

  lemma {:induction false} PeersHaveRoutes(items: seq<Item>, peer: string)
    ensures peer in Peers(items) <==> Routes(items, peer) != []
  {
    if items != [] {
      PeersHaveRoutes(items[..|items| - 1], peer);
    }
  }

  /** Where the entry of each peer is. */
  ghost predicate Placed(items: seq<Item>, positions: map<string, nat>) {
    positions.Keys == Peers(items) && forall p | p in positions :: PlacedAt(items, positions[p], p)
  }

  /** The routes of each peer. */
  ghost predicate Grouped(items: seq<Item>, routes: map<string, seq<Item>>) {
    routes.Keys == Peers(items) && forall p | p in routes :: routes[p] == Routes(items, p)
  }

  ghost predicate PlacedAt(items: seq<Item>, position: nat, peer: string) {
    position < |ShownIndexes(items)| && IsOf(items, ShownIndexes(items)[position], peer)
  }

  ghost predicate Collected(
    items: seq<Item>, preferred: string, visible: seq<Item>, positions: map<string, nat>, routes: map<string, seq<Item>>)
  {
    Drafted(items, preferred, visible) && Placed(items, positions) && Grouped(items, routes)
  }

  method VisibleConversations(conversations: seq<Item>, preferred: string) returns (visible: seq<Item>)
    ensures visible == Visible(conversations, preferred)
  {
    visible := [];
    var positions: map<string, nat>, routes: map<string, seq<Item>> := map[], map[];
    for n := 0 to |conversations|
      invariant Collected(conversations[..n], preferred, visible, positions, routes)
    {
      visible, positions, routes := Collect(conversations[..n], conversations[n], preferred, visible, positions, routes);
      assert conversations[..n + 1] == conversations[..n] + [conversations[n]];
    }
    assert conversations[..|conversations|] == conversations;
    visible := MergeRoutes(conversations, preferred, visible, positions, routes);
  }

  /** One round of the first loop. */
  method Collect(
    ghost items: seq<Item>, item: Item, preferred: string,
    visible: seq<Item>, positions: map<string, nat>, routes: map<string, seq<Item>>)
    returns (visible': seq<Item>, positions': map<string, nat>, routes': map<string, seq<Item>>)
    requires Collected(items, preferred, visible, positions, routes)
    ensures Collected(items + [item], preferred, visible', positions', routes')
  {
    visible', positions', routes' := visible, positions, routes;
    if IsOldPublic(item) {
      OtherStep(items, item, preferred, visible, positions, routes);
      return;
    }
    if item.kind != Dm {
      OtherStep(items, item, preferred, visible, positions, routes);
      visible' := visible + [item];
      return;
    }
    var peer := PeerOf(item);
    if peer !in positions {
      NewPeerStep(items, item, preferred, visible, positions, routes);
      positions' := positions[peer := |visible|];
      routes' := routes[peer := [item]];
      visible' := visible + [item];
    } else {
      RouteStep(items, item, preferred, visible, positions, routes);
      var position := positions[peer];
      routes' := routes[peer := routes[peer] + [item]];
      if LowerPriority(preferred)(visible[position], item) {
        visible' := visible[position := item];
      }
    }
  }

  /** An entry of the second loop while some peers are left. */
  ghost function Partial(items: seq<Item>, i: nat, preferred: string, peers: set<string>): Item
    requires i < |items|
  {
    if items[i].kind == Dm && PeerOf(items[i]) in peers then Draft(items, i, preferred) else Entry(items, i, preferred)
  }

  ghost predicate Merging(items: seq<Item>, preferred: string, visible: seq<Item>, peers: set<string>) {
    visible == MergedExcept(items, preferred, peers)
  }

  ghost function MergedExcept(items: seq<Item>, preferred: string, peers: set<string>): seq<Item> {
    var indexes := ShownIndexes(items);
    seq(|indexes|, k requires 0 <= k < |indexes| => Partial(items, indexes[k], preferred, peers))
  }

  lemma OneMerged(items: seq<Item>, preferred: string, visible: seq<Item>, position: nat, peer: string, peers: set<string>)
    requires Merging(items, preferred, visible, peers) && PlacedAt(items, position, peer) && peer in peers
    ensures Merging(items, preferred, visible[position := Entry(items, ShownIndexes(items)[position], preferred)], peers - {peer})
  {
    var indexes := ShownIndexes(items);
    var visible' := visible[position := Entry(items, indexes[position], preferred)];
    OnlyPosition(items, position, peer);
    forall k | 0 <= k < |indexes| ensures visible'[k] == Partial(items, indexes[k], preferred, peers - {peer}) {
      if k != position {
        assert !IsOf(items, indexes[k], peer);
      }
    }
  }

  lemma NoneMerged(items: seq<Item>, preferred: string, drafts: seq<Item>, routes: map<string, seq<Item>>)
    requires Drafted(items, preferred, drafts) && Grouped(items, routes)
    ensures Merging(items, preferred, drafts, routes.Keys)
  {
    var indexes := ShownIndexes(items);
    forall k | 0 <= k < |indexes| ensures drafts[k] == Partial(items, indexes[k], preferred, routes.Keys) {
      if items[indexes[k]].kind == Dm {
        SomeRoutes(items, indexes[k]);
        PeersHaveRoutes(items, PeerOf(items[indexes[k]]));
      }
    }
  }

  lemma AllMerged(items: seq<Item>, preferred: string, visible: seq<Item>)
    requires Merging(items, preferred, visible, {})
    ensures visible == Visible(items, preferred)
  {
  }

  lemma MergedEntry(
    items: seq<Item>, preferred: string, visible: seq<Item>, position: nat, peer: string, peers: set<string>,
    positions: map<string, nat>, routes: map<string, seq<Item>>)
    requires Merging(items, preferred, visible, peers) && Placed(items, positions) && Grouped(items, routes)
    requires peer in peers && peer in positions && positions[peer] == position
    ensures position < |visible| && peer in routes && routes[peer] != []
    ensures Merging(items, preferred, visible[position := Merged(visible[position], routes[peer])], peers - {peer})
  {
    assert PlacedAt(items, position, peer);
    SomeRoutes(items, ShownIndexes(items)[position]);
    MergedIsEntry(items, ShownIndexes(items)[position], preferred, peers);
    OneMerged(items, preferred, visible, position, peer, peers);
  }

  lemma MergedIsEntry(items: seq<Item>, i: nat, preferred: string, peers: set<string>)
    requires i < |items| && items[i].kind == Dm && PeerOf(items[i]) in peers
    ensures Routes(items, PeerOf(items[i])) != []
    ensures Entry(items, i, preferred) == Merged(Partial(items, i, preferred, peers), Routes(items, PeerOf(items[i])))
  {
    RoutesHas(items, i);
  }

  lemma {:induction false} SomeRoutes(items: seq<Item>, i: nat)
    requires i < |items| && items[i].kind == Dm
    ensures Routes(items, PeerOf(items[i])) != []
  {
    RoutesHas(items, i);
  }

  /** The second loop, over the peers. */
  method MergeRoutes(
    ghost items: seq<Item>, preferred: string, drafts: seq<Item>, positions: map<string, nat>, routes: map<string, seq<Item>>)
    returns (visible: seq<Item>)
    requires Collected(items, preferred, drafts, positions, routes)
    ensures visible == Visible(items, preferred)
  {
    visible := drafts;
    var peers := routes.Keys;
    NoneMerged(items, preferred, drafts, routes);
    while peers != {}
      invariant peers <= routes.Keys && Merging(items, preferred, visible, peers)
      decreases |peers|
    {
      var peer :| peer in peers;
      visible := MergePeer(items, preferred, visible, peer, peers, positions, routes);
      peers := peers - {peer};
    }
    AllMerged(items, preferred, visible);
  }

  /** One round of the second loop. */
  method MergePeer(
    ghost items: seq<Item>, ghost preferred: string, visible: seq<Item>, peer: string, ghost peers: set<string>,
    positions: map<string, nat>, routes: map<string, seq<Item>>)
    returns (visible': seq<Item>)
    requires Merging(items, preferred, visible, peers) && Placed(items, positions) && Grouped(items, routes)
    requires peer in peers && peer in routes
    ensures Merging(items, preferred, visible', peers - {peer})
  {
    var position := positions[peer];
    MergedEntry(items, preferred, visible, position, peer, peers, positions, routes);
    var entry := MergeEntry(visible[position], routes[peer]);
    visible' := visible[position := entry];
  }

  method MergeEntry(selected: Item, routes: seq<Item>) returns (entry: Item)
    requires routes != []
    ensures entry == Merged(selected, routes)
  {
    var newest := Newest(routes);
    var others, unread := Summarise(routes, selected.conversation);
    entry := selected.(lastId := newest.lastId, lastTime := newest.lastTime, lastText := newest.lastText,
                       unread := Some(unread), merged := Some(others));
  }

  method Newest(routes: seq<Item>) returns (newest: Item)
    requires routes != []
    ensures newest == Best(routes, Older)
  {
    newest := routes[0];
    for i := 1 to |routes|
      invariant newest == Best(routes[..i], Older)
    {
      assert routes[..i + 1][..i] == routes[..i];
      if Older(newest, routes[i]) {
        newest := routes[i];
      }
    }
    assert routes[..|routes|] == routes;
  }

  method Summarise(routes: seq<Item>, selected: string) returns (others: seq<string>, unread: int)
    ensures others == OtherRoutes(routes, selected) && unread == SumUnread(routes)
  {
    others, unread := [], 0;
    for i := 0 to |routes|
      invariant others == OtherRoutes(routes[..i], selected) && unread == SumUnread(routes[..i])
    {
      assert routes[..i + 1][..i] == routes[..i];
      unread := unread + OrZero(routes[i].unread);
      if routes[i].conversation != selected {
        others := others + [routes[i].conversation];
      }
    }
    assert routes[..|routes|] == routes;
  }

  lemma OnlyPosition(items: seq<Item>, position: nat, peer: string)
    requires position < |ShownIndexes(items)| && IsOf(items, ShownIndexes(items)[position], peer)
    ensures forall k | 0 <= k < |ShownIndexes(items)| && IsOf(items, ShownIndexes(items)[k], peer) :: k == position
  {
    var indexes := ShownIndexes(items);
    IndexFacts(items);
    PeerIsShownOnce(items, indexes[position]);
    forall k | 0 <= k < |indexes| && IsOf(items, indexes[k], peer) ensures k == position {
      assert indexes[k] in indexes && indexes[position] in indexes;
      assert indexes[k] == indexes[position];
    }
  }

  // One item more.

  lemma OneMore(items: seq<Item>, item: Item, peer: string)
    ensures Routes(items + [item], peer) == if item.kind == Dm && PeerOf(item) == peer then Routes(items, peer) + [item] else Routes(items, peer)
  {
    assert (items + [item])[..|items + [item]| - 1] == items;
  }

  lemma {:induction false} NoRoutes(items: seq<Item>, peer: string)
    requires forall i | 0 <= i < |items| :: !IsOf(items, i, peer)
    ensures Routes(items, peer) == []
  {
    if items != [] {
      var init := items[..|items| - 1];
      forall i | 0 <= i < |init| ensures !IsOf(init, i, peer) {
        assert init[i] == items[i];
        assert !IsOf(items, i, peer);
      }
      assert !IsOf(items, |items| - 1, peer);
      NoRoutes(init, peer);
    }
  }

  lemma ShownIffFirst(items: seq<Item>, item: Item)
    requires item.kind == Dm
    ensures Shown(items + [item], |items|) <==> Routes(items, PeerOf(item)) == []
  {
    var peer, items' := PeerOf(item), items + [item];
    forall j | 0 <= j < |items| ensures IsOf(items', j, peer) == IsOf(items, j, peer) {
      assert items'[j] == items[j];
    }
    assert items'[|items|] == item && !IsOldPublic(item);
    if i: nat :| i < |items| && IsOf(items, i, peer) {
      SomeRoutes(items, i);
    } else {
      NoRoutes(items, peer);
    }
  }

  /** How one more item changes an earlier draft. */
  lemma DraftOneMore(items: seq<Item>, item: Item, i: nat, preferred: string)
    requires i < |items|
    ensures Draft(items + [item], i, preferred) ==
              if item.kind == Dm && IsOf(items, i, PeerOf(item)) && LowerPriority(preferred)(Draft(items, i, preferred), item) then item
              else Draft(items, i, preferred)
  {
    assert (items + [item])[i] == items[i];
    OneMore(items, item, PeerOf(items[i]));
    if item.kind == Dm && IsOf(items, i, PeerOf(item)) {
      RoutesHas(items, i);
      BestOneMore(Routes(items, PeerOf(item)), item, LowerPriority(preferred));
    }
  }

  lemma ShownOneMore(items: seq<Item>, item: Item)
    ensures var indexes, indexes' := ShownIndexes(items), ShownIndexes(items + [item]);
            && indexes' == indexes + (if Shown(items + [item], |items|) then [|items|] else [])
            && forall k | 0 <= k < |indexes| :: indexes'[k] == indexes[k] && (items + [item])[indexes[k]] == items[indexes[k]]
  {
    assert (items + [item])[..|items + [item]| - 1] == items;
  }

  lemma LastDraft(items: seq<Item>, item: Item, preferred: string)
    requires Shown(items + [item], |items|)
    ensures Draft(items + [item], |items|, preferred) == item
  {
    OneMore(items, item, PeerOf(item));
    if item.kind == Dm {
      ShownIffFirst(items, item);
      assert RoutesOf(items + [item], |items|) == [item];
    }
  }

  lemma NotOf(items: seq<Item>, i: nat, peer: string)
    requires i < |items|
    ensures Routes(items, peer) == [] ==> !IsOf(items, i, peer)
  {
    if IsOf(items, i, peer) {
      SomeRoutes(items, i);
    }
  }

  /** An item that is no further route of a known peer. */
  lemma DraftsKeep(items: seq<Item>, item: Item, preferred: string, visible: seq<Item>)
    requires Drafted(items, preferred, visible) && (item.kind == Dm ==> Routes(items, PeerOf(item)) == [])
    ensures Drafted(items + [item], preferred, if Shown(items + [item], |items|) then visible + [item] else visible)
  {
    var items', indexes, indexes' := items + [item], ShownIndexes(items), ShownIndexes(items + [item]);
    var visible' := if Shown(items', |items|) then visible + [item] else visible;
    ShownOneMore(items, item);
    forall k | 0 <= k < |indexes'| ensures visible'[k] == Draft(items', indexes'[k], preferred) {
      if k < |indexes| {
        DraftOneMore(items, item, indexes[k], preferred);
        NotOf(items, indexes[k], PeerOf(item));
      } else {
        LastDraft(items, item, preferred);
      }
    }
  }

  lemma PlacedOneMore(items: seq<Item>, item: Item, position: nat, peer: string)
    requires PlacedAt(items, position, peer)
    ensures PlacedAt(items + [item], position, peer)
  {
    ShownOneMore(items, item);
  }

  lemma PeersOneMore(items: seq<Item>, item: Item)
    ensures Peers(items + [item]) == Peers(items) + if item.kind == Dm then {PeerOf(item)} else {}
  {
    assert (items + [item])[..|items + [item]| - 1] == items;
  }

  lemma PlacesKeep(items: seq<Item>, item: Item, positions: map<string, nat>)
    requires Placed(items, positions) && item.kind != Dm
    ensures Placed(items + [item], positions)
  {
    PeersOneMore(items, item);
    forall p | p in positions ensures PlacedAt(items + [item], positions[p], p) {
      PlacedOneMore(items, item, positions[p], p);
    }
  }

  lemma GroupsKeep(items: seq<Item>, item: Item, routes: map<string, seq<Item>>)
    requires Grouped(items, routes) && item.kind != Dm
    ensures Grouped(items + [item], routes)
  {
    PeersOneMore(items, item);
    forall p | p in routes ensures routes[p] == Routes(items + [item], p) {
      OneMore(items, item, p);
    }
  }

  lemma GroupsGrow(items: seq<Item>, item: Item, routes: map<string, seq<Item>>)
    requires Grouped(items, routes) && item.kind == Dm
    ensures Grouped(items + [item], routes[PeerOf(item) := (if PeerOf(item) in routes then routes[PeerOf(item)] else []) + [item]])
  {
    var peer := PeerOf(item);
    PeersOneMore(items, item);
    PeersHaveRoutes(items, peer);
    var routes' := routes[peer := (if peer in routes then routes[peer] else []) + [item]];
    forall p | p in routes' ensures routes'[p] == Routes(items + [item], p) {
      OneMore(items, item, p);
    }
  }

  lemma NewPeerPlaced(items: seq<Item>, item: Item, positions: map<string, nat>)
    requires Placed(items, positions) && item.kind == Dm && PeerOf(item) !in positions && Shown(items + [item], |items|)
    ensures Placed(items + [item], positions[PeerOf(item) := |ShownIndexes(items)|])
  {
    var peer, items' := PeerOf(item), items + [item];
    var positions' := positions[peer := |ShownIndexes(items)|];
    PeersOneMore(items, item);
    ShownOneMore(items, item);
    forall p | p in positions' ensures PlacedAt(items', positions'[p], p) {
      if p != peer {
        PlacedOneMore(items, item, positions[p], p);
      }
    }
  }

  lemma RouteDrafted(items: seq<Item>, item: Item, preferred: string, visible: seq<Item>, position: nat)
    requires Drafted(items, preferred, visible) && item.kind == Dm && PlacedAt(items, position, PeerOf(item))
    requires !Shown(items + [item], |items|)
    ensures Drafted(items + [item], preferred,
              if LowerPriority(preferred)(visible[position], item) then visible[position := item] else visible)
  {
    var indexes := ShownIndexes(items);
    var visible' := if LowerPriority(preferred)(visible[position], item) then visible[position := item] else visible;
    ShownOneMore(items, item);
    OnlyPosition(items, position, PeerOf(item));
    forall k | 0 <= k < |indexes| ensures visible'[k] == Draft(items + [item], indexes[k], preferred) {
      DraftOneMore(items, item, indexes[k], preferred);
    }
  }

  lemma RoutePlaced(items: seq<Item>, item: Item, positions: map<string, nat>)
    requires Placed(items, positions) && item.kind == Dm && PeerOf(item) in positions
    ensures Placed(items + [item], positions)
  {
    PeersOneMore(items, item);
    forall p | p in positions ensures PlacedAt(items + [item], positions[p], p) {
      PlacedOneMore(items, item, positions[p], p);
    }
  }

  // The rounds of the first loop.

  lemma OtherStep(items: seq<Item>, item: Item, preferred: string, visible: seq<Item>, positions: map<string, nat>, routes: map<string, seq<Item>>)
    requires Collected(items, preferred, visible, positions, routes) && item.kind != Dm
    ensures Collected(items + [item], preferred, if IsOldPublic(item) then visible else visible + [item], positions, routes)
  {
    DraftsKeep(items, item, preferred, visible);
    PlacesKeep(items, item, positions);
    GroupsKeep(items, item, routes);
    assert Shown(items + [item], |items|) <==> !IsOldPublic(item);
  }

  lemma NewPeerStep(items: seq<Item>, item: Item, preferred: string, visible: seq<Item>, positions: map<string, nat>, routes: map<string, seq<Item>>)
    requires Collected(items, preferred, visible, positions, routes) && item.kind == Dm && PeerOf(item) !in positions
    ensures Collected(items + [item], preferred, visible + [item], positions[PeerOf(item) := |visible|], routes[PeerOf(item) := [item]])
  {
    UnplacedHasNone(items, positions, PeerOf(item));
    ShownIffFirst(items, item);
    NewPeerDrafted(items, item, preferred, visible);
    NewPeerPlaced(items, item, positions);
    NewPeerGrouped(items, item, routes);
  }

  lemma UnplacedHasNone(items: seq<Item>, positions: map<string, nat>, peer: string)
    requires Placed(items, positions) && peer !in positions
    ensures Routes(items, peer) == []
  {
    PeersHaveRoutes(items, peer);
  }

  lemma NewPeerDrafted(items: seq<Item>, item: Item, preferred: string, visible: seq<Item>)
    requires Drafted(items, preferred, visible) && item.kind == Dm && Routes(items, PeerOf(item)) == [] && Shown(items + [item], |items|)
    ensures Drafted(items + [item], preferred, visible + [item])
  {
    DraftsKeep(items, item, preferred, visible);
  }

  lemma NewPeerGrouped(items: seq<Item>, item: Item, routes: map<string, seq<Item>>)
    requires Grouped(items, routes) && item.kind == Dm && PeerOf(item) !in routes
    ensures Grouped(items + [item], routes[PeerOf(item) := [item]])
  {
    GroupsGrow(items, item, routes);
    assert [] + [item] == [item];
  }

  lemma RouteStep(items: seq<Item>, item: Item, preferred: string, visible: seq<Item>, positions: map<string, nat>, routes: map<string, seq<Item>>)
    requires Collected(items, preferred, visible, positions, routes) && item.kind == Dm && PeerOf(item) in positions
    ensures PeerOf(item) in routes && positions[PeerOf(item)] < |visible|
    ensures var peer, position := PeerOf(item), positions[PeerOf(item)];
            var visible' := if LowerPriority(preferred)(visible[position], item) then visible[position := item] else visible;
            Collected(items + [item], preferred, visible', positions, routes[peer := routes[peer] + [item]])
  {
    var position := positions[PeerOf(item)];
    assert PlacedAt(items, position, PeerOf(item));
    SomeRoutes(items, ShownIndexes(items)[position]);
    ShownIffFirst(items, item);
    RouteDrafted(items, item, preferred, visible, position);
    RoutePlaced(items, item, positions);
    GroupsGrow(items, item, routes);
  }

  lemma BestOneMore(routes: seq<Item>, item: Item, less: (Item, Item) -> bool)
    requires routes != []
    ensures Best(routes + [item], less) == if less(Best(routes, less), item) then item else Best(routes, less)
  {
    assert (routes + [item])[..|routes + [item]| - 1] == routes;
  }

  // ---------- What the list says ----------

  ghost predicate StrictOrder(less: (Item, Item) -> bool) {
    && (forall a, b, c :: less(a, b) && less(b, c) ==> less(a, c))
    && (forall a, b, c :: less(a, c) ==> less(a, b) || less(b, c))
    && forall a :: !less(a, a)
  }

  lemma {:induction false} StringOrder(a: string, b: string, c: string)
    ensures !StringLess(a, a)
    ensures StringLess(a, b) && StringLess(b, c) ==> StringLess(a, c)
    ensures StringLess(a, c) ==> StringLess(a, b) || StringLess(b, c)
    decreases |a| + |b| + |c|
  {
    if a != [] {
      StringOrder(a[1..], if b == [] then [] else b[1..], if c == [] then [] else c[1..]);
    }
  }

  lemma OlderIsOrder()
    ensures StrictOrder(Older)
  {
    forall a: Item, b: Item, c: Item
      ensures Older(a, b) && Older(b, c) ==> Older(a, c)
      ensures Older(a, c) ==> Older(a, b) || Older(b, c)
      ensures !Older(a, a)
    {
      StringOrder(OrEmpty(a.lastTime), OrEmpty(b.lastTime), OrEmpty(c.lastTime));
    }
  }

  lemma PriorityIsOrder(preferred: string)
    ensures StrictOrder(LowerPriority(preferred))
  {
    OlderIsOrder();
  }

  /** The best route is one of the routes, none beats it, and no earlier one is as good. */
  lemma {:induction false} BestIsFirstMaximum(routes: seq<Item>, less: (Item, Item) -> bool)
    requires routes != [] && StrictOrder(less)
    ensures exists i :: 0 <= i < |routes| && routes[i] == Best(routes, less) && forall j | 0 <= j < i :: less(routes[j], routes[i])
    ensures forall r | r in routes :: !less(Best(routes, less), r)
  {
    var n := |routes| - 1;
    var last := routes[n];
    if n > 0 {
      var init := routes[..n];
      BestIsFirstMaximum(init, less);
      var i :| 0 <= i < |init| && init[i] == Best(init, less) && forall j | 0 <= j < i :: less(init[j], init[i]);
      assert routes == init + [last];
      if less(init[i], last) {
        LastBeatsAll(init, init[i], last, less);
        assert routes[n] == Best(routes, less) && forall j | 0 <= j < n :: routes[j] == init[j];
      } else {
        assert routes[i] == Best(routes, less) && forall j | 0 <= j < i :: routes[j] == init[j];
      }
    }
  }

  lemma LastBeatsAll(init: seq<Item>, best: Item, last: Item, less: (Item, Item) -> bool)
    requires StrictOrder(less) && less(best, last) && forall r | r in init :: !less(best, r)
    ensures forall j | 0 <= j < |init| :: less(init[j], last)
  {
    forall j | 0 <= j < |init| ensures less(init[j], last) {
      assert init[j] in init;
      assert less(best, init[j]) || less(init[j], last);
    }
  }

  /** An entry of a peer is one of its routes, and no route has higher priority. */
  lemma EntryHasHighestPriority(items: seq<Item>, i: nat, preferred: string)
    requires i < |items| && items[i].kind == Dm
    ensures var routes, entry := Routes(items, PeerOf(items[i])), Entry(items, i, preferred);
            exists r | r in routes ::
              && entry.conversation == r.conversation && entry.sendable == r.sendable && entry.peerNode == r.peerNode
              && forall other | other in routes :: !LowerPriority(preferred)(r, other)
  {
    var routes := RoutesOf(items, i);
    PriorityIsOrder(preferred);
    BestIsFirstMaximum(routes, LowerPriority(preferred));
    assert Best(routes, LowerPriority(preferred)) in routes;
  }

  /** It shows the last message of a route with the newest one. */
  lemma EntryShowsNewest(items: seq<Item>, i: nat, preferred: string)
    requires i < |items| && items[i].kind == Dm
    ensures var routes, entry := Routes(items, PeerOf(items[i])), Entry(items, i, preferred);
            exists r | r in routes ::
              && entry.lastId == r.lastId && entry.lastTime == r.lastTime && entry.lastText == r.lastText
              && forall other | other in routes :: !Older(r, other)
  {
    var routes := RoutesOf(items, i);
    OlderIsOrder();
    BestIsFirstMaximum(routes, Older);
    assert Best(routes, Older) in routes;
  }

  /** Every route is the selected conversation or is listed, as often as it occurs. */
  lemma EntryListsOtherRoutes(items: seq<Item>, i: nat, preferred: string)
    requires i < |items| && items[i].kind == Dm
    ensures var all, entry := multiset(ConversationsOf(Routes(items, PeerOf(items[i])))), Entry(items, i, preferred);
            entry.merged.Some? && all == multiset(entry.merged.value) + multiset{}[entry.conversation := all[entry.conversation]]
  {
    var routes := RoutesOf(items, i);
    RoutesSplit(routes, Best(routes, LowerPriority(preferred)).conversation);
  }

  ghost function ConversationsOf(routes: seq<Item>): seq<string> {
    if routes == [] then [] else ConversationsOf(routes[..|routes| - 1]) + [routes[|routes| - 1].conversation]
  }

  lemma {:induction false} RoutesSplit(routes: seq<Item>, selected: string)
    ensures var all := multiset(ConversationsOf(routes));
            all == multiset(OtherRoutes(routes, selected)) + multiset{}[selected := all[selected]]
  {
    if routes != [] {
      RoutesSplit(routes[..|routes| - 1], selected);
    }
  }

  /** Which items are hidden or lead no entry of their own: old public channels, and later routes of a peer. */
  lemma ShownIff(items: seq<Item>, i: nat)
    requires i < |items|
    ensures Shown(items, i) <==>
              match items[i].kind
              case Public => !("legacy:" <= items[i].channelKey)
              case Dm => forall j | 0 <= j < i && items[j].kind == Dm :: !SameLetters(NameOf(items[j]), NameOf(items[i]))
              case Other => true
  {
    forall j | 0 <= j < i ensures PeerOf(items[j]) == PeerOf(items[i]) <==> SameLetters(NameOf(items[j]), NameOf(items[i])) {
      SameLettersIff(NameOf(items[j]), NameOf(items[i]));
    }
    if items[i].kind == Dm && Shown(items, i) {
      forall j | 0 <= j < i && items[j].kind == Dm ensures !SameLetters(NameOf(items[j]), NameOf(items[i])) {
        assert !IsOf(items, j, PeerOf(items[i]));
      }
    }
  }

  /** What names the peer of a route. */
  ghost function NameOf(item: Item): string {
    if item.peerNode != "" then item.peerNode else item.conversation
  }

  /** The same name when upper and lower case are not told apart. */
  ghost predicate SameLetters(a: string, b: string) {
    |a| == |b| && forall k | 0 <= k < |a| ::
      a[k] == b[k] || ('A' <= a[k] <= 'Z' && b[k] == a[k] - 'A' + 'a') || ('A' <= b[k] <= 'Z' && a[k] == b[k] - 'A' + 'a')
  }

  lemma SameLettersIff(a: string, b: string)
    ensures Lower(a) == Lower(b) <==> SameLetters(a, b)
  {
    if Lower(a) == Lower(b) {
      assert |Lower(a)| == |a| && |Lower(b)| == |b|;
      forall k | 0 <= k < |a|
        ensures a[k] == b[k] || ('A' <= a[k] <= 'Z' && b[k] == a[k] - 'A' + 'a') || ('A' <= b[k] <= 'Z' && a[k] == b[k] - 'A' + 'a')
      {
        assert LowerChar(a[k]) == Lower(a)[k] == Lower(b)[k] == LowerChar(b[k]);
      }
    }
  }

  /** Strings are compared at the first place where they differ; a proper prefix is less. */
  lemma {:induction false} StringLessIff(a: string, b: string)
    ensures StringLess(a, b) <==>
            exists k | 0 <= k <= |a| && k < |b| :: a[..k] == b[..k] && (k == |a| || a[k] < b[k])
  {
    if a != [] && b != [] && a[0] == b[0] {
      StringLessIff(a[1..], b[1..]);
      forall k | 0 <= k < |b|
        ensures k > 0 && k <= |a| ==> (a[..k] == b[..k] <==> a[1..][..k - 1] == b[1..][..k - 1])
      {
        if 0 < k <= |a| {
          assert a[..k] == [a[0]] + a[1..][..k - 1] && b[..k] == [b[0]] + b[1..][..k - 1];
        }
      }
      if k :| 0 <= k <= |a| && k < |b| && a[..k] == b[..k] && (k == |a| || a[k] < b[k]) {
        assert k > 0 && a[1..][..k - 1] == b[1..][..k - 1];
      }
      if k :| 0 <= k <= |a[1..]| && k < |b[1..]| && a[1..][..k] == b[1..][..k] && (k == |a[1..]| || a[1..][k] < b[1..][k]) {
        assert a[..k + 1] == b[..k + 1];
      }
    } else if a == [] && b != [] {
      assert a[..0] == b[..0];
    } else if a != [] && b != [] && a[0] < b[0] {
      assert a[..0] == b[..0];
    } else {
      assert forall k | 0 < k <= |a| && k < |b| :: a[..k][0] == a[0] && b[..k][0] == b[0];
    }
  }

  /**
   The selected route can send if any can; among those alike the preferred one is selected, then one with a
   direct-message ID, and then one with a last message ID no other one exceeds.
   */
  lemma EntrySelects(items: seq<Item>, i: nat, preferred: string) returns (r: Item)
    requires i < |items| && items[i].kind == Dm
    ensures var routes, entry := Routes(items, PeerOf(items[i])), Entry(items, i, preferred);
            && r in routes && entry == r.(lastId := entry.lastId, lastTime := entry.lastTime, lastText := entry.lastText,
                                          unread := entry.unread, merged := entry.merged)
            && forall other | other in routes :: NoBetter(other, r, preferred)
  {
    var routes := RoutesOf(items, i);
    r := Best(routes, LowerPriority(preferred));
    PriorityIsOrder(preferred);
    BestIsFirstMaximum(routes, LowerPriority(preferred));
    forall other | other in routes ensures NoBetter(other, r, preferred) {
      UnbeatenIsNoBetter(other, r, preferred);
    }
  }

  ghost predicate NoBetter(other: Item, r: Item, preferred: string) {
    && (other.sendable ==> r.sendable)
    && (other.sendable == r.sendable ==>
          && (other.conversation == preferred ==> r.conversation == preferred)
          && ("dm:" <= other.conversation ==> r.conversation == preferred || "dm:" <= r.conversation)
          && (other.conversation == r.conversation && other.lastId.Some? ==>
                other.lastId.value <= if r.lastId.Some? then r.lastId.value else 0))
  }

  lemma UnbeatenIsNoBetter(other: Item, r: Item, preferred: string)
    requires !LowerPriority(preferred)(r, other)
    ensures NoBetter(other, r, preferred)
  {
    var less := LowerPriority(preferred);
    assert !(Rank(r, preferred) < Rank(other, preferred) || (Rank(r, preferred) == Rank(other, preferred) && Older(r, other)));
    assert StartsWith(other.conversation, "dm:") <==> "dm:" <= other.conversation;
    assert StartsWith(r.conversation, "dm:") <==> "dm:" <= r.conversation;
  }

  /** No route has a message with a higher ID, nor one with the same ID and a later time; a missing ID counts as zero. */
  lemma EntryIsNewest(items: seq<Item>, i: nat, preferred: string, other: Item)
    requires i < |items| && items[i].kind == Dm && other in Routes(items, PeerOf(items[i]))
    ensures var entry := Entry(items, i, preferred);
            && (other.lastId.Some? ==> other.lastId.value <= if entry.lastId.Some? then entry.lastId.value else 0)
            && (other.lastId == entry.lastId && other.lastTime.Some? && entry.lastTime.Some? ==>
                  !StringLess(entry.lastTime.value, other.lastTime.value))
  {
    EntryShowsNewest(items, i, preferred);
  }

  /** The unread messages of an entry are added up over the routes, each counted once. */
  lemma {:induction false} UnreadIsSum(a: seq<Item>, b: seq<Item>)
    ensures SumUnread(a + b) == SumUnread(a) + SumUnread(b)
    ensures forall x: Item :: SumUnread([x]) == if x.unread.None? then 0 else x.unread.value
    decreases |b|
  {
    if b == [] {
      assert a + b == a;
    } else {
      var n := |b| - 1;
      UnreadIsSum(a, b[..n]);
      assert (a + b)[..|a + b| - 1] == a + b[..n];
    }
    forall x: Item ensures SumUnread([x]) == if x.unread.None? then 0 else x.unread.value {
      assert [x][..0] == [];
    }
  }

  // Unread messages are conserved.

  function Kept(items: seq<Item>): seq<Item> {
    if items == [] then []
    else if IsOldPublic(items[|items| - 1]) then Kept(items[..|items| - 1])
    else Kept(items[..|items| - 1]) + [items[|items| - 1]]
  }

  function EntryUnread(items: seq<Item>, i: nat): int
    requires i < |items|
  {
    if items[i].kind == Dm then SumUnread(Routes(items, PeerOf(items[i]))) else OrZero(items[i].unread)
  }

  function SumEntries(items: seq<Item>, indexes: seq<nat>): int
    requires forall k | 0 <= k < |indexes| :: indexes[k] < |items|
  {
    if indexes == [] then 0
    else
      var n := |indexes| - 1;
      SumEntries(items, indexes[..n]) + EntryUnread(items, indexes[n])
  }

  /** One more route adds its unread messages to the one entry of its peer. */
  lemma {:induction false} SumOneMore(items: seq<Item>, item: Item, indexes: seq<nat>)
    requires forall k | 0 <= k < |indexes| :: indexes[k] < |items|
    requires forall k, l | 0 <= k < l < |indexes| && item.kind == Dm && IsOf(items, indexes[k], PeerOf(item)) ::
               !IsOf(items, indexes[l], PeerOf(item))
    ensures SumEntries(items + [item], indexes) ==
              SumEntries(items, indexes) + if HasEntry(items, indexes, item) then OrZero(item.unread) else 0
  {
    if indexes != [] {
      var n := |indexes| - 1;
      SumOneMore(items, item, indexes[..n]);
      UnreadOneMore(items, item, indexes[n]);
      HasEntryStep(items, indexes, item);
    }
  }

  lemma HasEntryStep(items: seq<Item>, indexes: seq<nat>, item: Item)
    requires indexes != [] && forall k | 0 <= k < |indexes| :: indexes[k] < |items|
    ensures var n := |indexes| - 1;
            HasEntry(items, indexes, item) <==> HasEntry(items, indexes[..n], item) || (item.kind == Dm && IsOf(items, indexes[n], PeerOf(item)))
  {
    var n, peer := |indexes| - 1, PeerOf(item);
    if k :| 0 <= k < n && IsOf(items, indexes[..n][k], peer) {
      assert indexes[..n][k] == indexes[k];
    }
    if k :| 0 <= k < n && IsOf(items, indexes[k], peer) {
      assert indexes[..n][k] == indexes[k];
    }
  }

  /** One of the indexes belongs to the peer of a direct message. */
  predicate HasEntry(items: seq<Item>, indexes: seq<nat>, item: Item)
    requires forall k | 0 <= k < |indexes| :: indexes[k] < |items|
  {
    item.kind == Dm && exists k | 0 <= k < |indexes| :: IsOf(items, indexes[k], PeerOf(item))
  }

  lemma UnreadOneMore(items: seq<Item>, item: Item, i: nat)
    requires i < |items|
    ensures EntryUnread(items + [item], i) ==
              EntryUnread(items, i) + if item.kind == Dm && IsOf(items, i, PeerOf(item)) then OrZero(item.unread) else 0
  {
    assert (items + [item])[i] == items[i];
    OneMore(items, item, PeerOf(items[i]));
    var routes := Routes(items, PeerOf(item));
    assert (routes + [item])[..|routes + [item]| - 1] == routes;
  }

  lemma {:induction false} EntriesSum(items: seq<Item>)
    ensures SumEntries(items, ShownIndexes(items)) == SumUnread(Kept(items))
  {
    if items != [] {
      var n := |items| - 1;
      var init, item := items[..n], items[n];
      assert items == init + [item];
      var indexes := ShownIndexes(init);
      EntriesSum(init);
      IndexFacts(init);
      ShownOneMore(init, item);
      KeptOneMore(init, item);
      forall k, l | 0 <= k < l < |indexes| && item.kind == Dm && IsOf(init, indexes[k], PeerOf(item))
        ensures !IsOf(init, indexes[l], PeerOf(item))
      {
        OnlyPosition(init, k, PeerOf(item));
      }
      SumOneMore(init, item, indexes);
      if item.kind == Dm {
        ShownNewOrKnown(init, item);
      }
      if Shown(items, n) {
        LastEntry(init, item);
      }
    }
  }

  lemma KeptOneMore(init: seq<Item>, item: Item)
    ensures SumUnread(Kept(init + [item])) == SumUnread(Kept(init)) + if IsOldPublic(item) then 0 else OrZero(item.unread)
  {
    assert (init + [item])[..|init + [item]| - 1] == init;
    assert (Kept(init) + [item])[..|Kept(init)|] == Kept(init);
  }

  lemma ShownNewOrKnown(init: seq<Item>, item: Item)
    requires item.kind == Dm
    ensures Shown(init + [item], |init|) <==> !HasEntry(init, ShownIndexes(init), item)
  {
    var peer, indexes := PeerOf(item), ShownIndexes(init);
    IndexFacts(init);
    ShownIffFirst(init, item);
    if HasEntry(init, indexes, item) {
      var k :| 0 <= k < |indexes| && IsOf(init, indexes[k], peer);
      SomeRoutes(init, indexes[k]);
    } else {
      forall i | 0 <= i < |init| ensures !IsOf(init, i, peer) {
        if init[i].kind == Dm {
          PeerIsShownOnce(init, i);
          var j: nat :| Shown(init, j) && IsOf(init, j, PeerOf(init[i]));
          var k :| 0 <= k < |indexes| && indexes[k] == j;
          assert !IsOf(init, indexes[k], peer);
        }
      }
      NoRoutes(init, peer);
    }
  }

  lemma LastEntry(init: seq<Item>, item: Item)
    requires Shown(init + [item], |init|)
    ensures SumEntries(init + [item], ShownIndexes(init) + [|init|]) == SumEntries(init + [item], ShownIndexes(init)) + OrZero(item.unread)
  {
    var items, indexes := init + [item], ShownIndexes(init);
    assert (indexes + [|init|])[..|indexes|] == indexes;
    OneMore(init, item, PeerOf(item));
    if item.kind == Dm {
      ShownIffFirst(init, item);
      assert SumUnread([item]) == OrZero(item.unread);
    }
  }

  lemma {:induction false} SumOfEntries(items: seq<Item>, preferred: string, n: nat)
    requires n <= |Visible(items, preferred)|
    ensures SumUnread(Visible(items, preferred)[..n]) == SumEntries(items, ShownIndexes(items)[..n])
  {
    var visible, indexes := Visible(items, preferred), ShownIndexes(items);
    if n > 0 {
      SumOfEntries(items, preferred, n - 1);
      assert visible[..n][..n - 1] == visible[..n - 1];
      assert indexes[..n][..n - 1] == indexes[..n - 1];
      assert OrZero(visible[n - 1].unread) == EntryUnread(items, indexes[n - 1]);
    }
  }

  /** No unread message is lost or counted twice by merging, except those of hidden old channels. */
  lemma UnreadIsConserved(items: seq<Item>, preferred: string)
    ensures SumUnread(Visible(items, preferred)) == SumUnread(Kept(items))
  {
    var visible := Visible(items, preferred);
    SumOfEntries(items, preferred, |visible|);
    EntriesSum(items);
    assert visible[..|visible|] == visible && ShownIndexes(items)[..|visible|] == ShownIndexes(items);
  }

  /** Entries appear in the order of the items that lead to them; other conversations are untouched. */
  lemma EntriesKeepOrder(items: seq<Item>, preferred: string)
    ensures var visible, indexes := Visible(items, preferred), ShownIndexes(items);
            && |visible| == |indexes| && Ascends(indexes)
            && (forall i: nat :: i in indexes <==> Shown(items, i))
            && forall k | 0 <= k < |indexes| :: indexes[k] < |items| && (items[indexes[k]].kind != Dm ==> visible[k] == items[indexes[k]])
  {
    IndexFacts(items);
  }
}
