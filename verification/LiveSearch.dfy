/**
  Live search: a breadth-first walk over a paged namespace through a queue of scopes, against the
  level-by-level order of everything that can be reached.
*/
module LiveSearch {
  import opened Prelude

  const MAX_SEARCH_VISITED: nat := 50_000

  type Key = nat

  datatype Kind = Branch | Item | BranchAndItem

  datatype Node = Node(key: Key, display: string, kind: Kind, itemId: Option<string>)

  datatype Crumb = Crumb(key: Key, display: string)

  datatype Scope = Scope(parent: Option<Key>, crumbs: seq<Crumb>)

  datatype Mode = Exact | Prefix | Infix

  datatype Request = Request(text: string, mode: Mode, includeBranches: bool, root: Option<Key>)

  /** The pages a listing yields, and whether the browse call after them fails. */
  datatype Listing = Listing(pages: seq<seq<Node>>, fails: bool)

  type Namespace = Option<Key> -> Listing

  datatype Event =
    | Progress(visited: nat, matches: nat, partial: bool)
    | Match(node: Node, crumbs: seq<Crumb>)
    | Completed(complete: bool, truncated: bool)
    | Failed

  /** A node met while listing the scope with these breadcrumbs. */
  datatype Visit = Visit(node: Node, crumbs: seq<Crumb>)

  // ---------------------------------------------------------------- one node

  predicate TextMatches(r: Request, value: string) {
    match r.mode
    case Exact => value == r.text
    case Prefix => r.text <= value
    case Infix => Contains(value, r.text)
  }

  predicate SearchMatches(r: Request, n: Node) {
    TextMatches(r, n.display) || (n.itemId.Some? && TextMatches(r, n.itemId.value))
  }

  predicate Expandable(n: Node) {
    n.kind.Branch? || n.kind.BranchAndItem?
  }

  function CrumbOf(n: Node): Crumb {
    Crumb(n.key, n.display)
  }

  function RootScope(r: Request): Scope {
    Scope(r.root, if r.root.Some? then [Crumb(r.root.value, "")] else [])
  }

  function ChildScope(v: Visit): Scope {
    Scope(Some(v.node.key), v.crumbs + [CrumbOf(v.node)])
  }

  // ---------------------------------------------------------------- what a search reports

  /** Worth reporting, other than for an ItemID already reported. */
  predicate Eligible(r: Request, n: Node) {
    SearchMatches(r, n) && (n.itemId.Some? || r.includeBranches)
  }

  function ItemsOf(visits: seq<Visit>): set<string> {
    set v | v in visits && v.node.itemId.Some? :: v.node.itemId.value
  }

  predicate IsNew(seen: set<string>, n: Node) {
    n.itemId.None? || n.itemId.value !in seen
  }

  /** The visits reported, in the order of the walk: eligible, and the first of their ItemID. */
  function Selected(r: Request, trail: seq<Visit>): (s: seq<Visit>)
    ensures |s| <= |trail|
  {
    if trail == [] then []
    else
      var front := Selected(r, trail[..|trail| - 1]);
      var v := trail[|trail| - 1];
      if Eligible(r, v.node) && IsNew(ItemsOf(front), v.node) then front + [v] else front
  }

  /** v at i is eligible and no eligible visit before i names the same item. */
  ghost predicate FirstOfItem(r: Request, trail: seq<Visit>, i: nat)
    requires i < |trail|
  {
    && Eligible(r, trail[i].node)
    && (trail[i].node.itemId.Some? ==>
          forall j :: 0 <= j < i && Eligible(r, trail[j].node) ==> trail[j].node.itemId != trail[i].node.itemId)
  }

  lemma {:induction false} SelectedItems(r: Request, trail: seq<Visit>)
    ensures forall v :: v in Selected(r, trail) ==> v in trail && Eligible(r, v.node)
    ensures forall j :: 0 <= j < |trail| && Eligible(r, trail[j].node) && trail[j].node.itemId.Some? ==>
              trail[j].node.itemId.value in ItemsOf(Selected(r, trail))
  {
    if trail != [] {
      var front, v := trail[..|trail| - 1], trail[|trail| - 1];
      SelectedItems(r, front);
      assert trail == front + [v];
      assert forall j :: 0 <= j < |front| ==> trail[j] == front[j];
      var items := ItemsOf(Selected(r, front));
      if Eligible(r, v.node) && IsNew(items, v.node) {
        assert Selected(r, trail) == Selected(r, front) + [v];
        assert items <= ItemsOf(Selected(r, trail));
        assert v.node.itemId.Some? ==> v in Selected(r, trail) && v.node.itemId.value in ItemsOf(Selected(r, trail));
      }
    }
  }

  /** A longer walk reports what the shorter one did, and the last visit exactly when it comes first. */
  lemma SelectedMeaning(r: Request, trail: seq<Visit>, i: nat)
    requires i < |trail|
    ensures Selected(r, trail[..i + 1]) == Selected(r, trail[..i]) + (if FirstOfItem(r, trail, i) then [trail[i]] else [])
  {
    SelectedItems(r, trail[..i]);
    assert trail[..i + 1][..i] == trail[..i];
    var items := ItemsOf(Selected(r, trail[..i]));
    if trail[i].node.itemId.Some? && trail[i].node.itemId.value in items {
      var v :| v in Selected(r, trail[..i]) && v.node.itemId == trail[i].node.itemId;
      var j :| 0 <= j < i && trail[..i][j] == v;
      assert trail[j] == v;
    } else if trail[i].node.itemId.Some? {
      assert forall j :: 0 <= j < i ==> trail[..i][j] == trail[j];
    }
  }

  lemma {:induction false} SelectedPrefix(r: Request, trail: seq<Visit>, n: nat)
    requires n <= |trail|
    ensures Selected(r, trail[..n]) <= Selected(r, trail)
    decreases |trail| - n
  {
    if n == |trail| {
      assert trail[..n] == trail;
    } else {
      SelectedPrefix(r, trail, n + 1);
      assert trail[..n + 1][..n] == trail[..n];
    }
  }

  lemma {:induction false} SelectedOnce(r: Request, trail: seq<Visit>, i: nat, j: nat)
    requires i < j < |Selected(r, trail)|
    requires Selected(r, trail)[i].node.itemId.Some?
    ensures Selected(r, trail)[i].node.itemId != Selected(r, trail)[j].node.itemId
  {
    var front := trail[..|trail| - 1];
    var s := Selected(r, front);
    if j < |s| {
      SelectedOnce(r, front, i, j);
    } else {
      assert Selected(r, trail)[i] == s[i];
      assert s[i] in s;
      assert s[i].node.itemId.value in ItemsOf(s);
    }
  }

  // ---------------------------------------------------------------- level by level

  function Joined(pages: seq<seq<Node>>): seq<Node> {
    if pages == [] then [] else Joined(pages[..|pages| - 1]) + pages[|pages| - 1]
  }

  function Visits(nodes: seq<Node>, crumbs: seq<Crumb>): (v: seq<Visit>)
    ensures |v| == |nodes|
    ensures forall i :: 0 <= i < |nodes| ==> v[i] == Visit(nodes[i], crumbs)
  {
    seq(|nodes|, i requires 0 <= i < |nodes| => Visit(nodes[i], crumbs))
  }

  function Opened(visits: seq<Visit>): (s: seq<Scope>)
    ensures |s| <= |visits|
  {
    if visits == [] then []
    else
      var rest := Opened(visits[..|visits| - 1]);
      var v := visits[|visits| - 1];
      if Expandable(v.node) then rest + [ChildScope(v)] else rest
  }

  /** Everything listed under a scope. */
  function Listed(ns: Namespace, s: Scope): seq<Visit> {
    Visits(Joined(ns(s.parent).pages), s.crumbs)
  }

  function AllListed(ns: Namespace, scopes: seq<Scope>): seq<Visit> {
    if scopes == [] then [] else AllListed(ns, scopes[..|scopes| - 1]) + Listed(ns, scopes[|scopes| - 1])
  }

  /** The scopes d steps below the root, in order. */
  function Level(ns: Namespace, root: Scope, d: nat): seq<Scope> {
    if d == 0 then [root] else Opened(AllListed(ns, Level(ns, root, d - 1)))
  }

  /** The breadth-first order of the nodes in the first d levels. */
  function BreadthFirst(ns: Namespace, root: Scope, d: nat): seq<Visit> {
    if d == 0 then [] else BreadthFirst(ns, root, d - 1) + AllListed(ns, Level(ns, root, d - 1))
  }

  lemma OpenedSnoc(a: seq<Visit>, v: Visit)
    ensures Opened(a + [v]) == Opened(a) + if Expandable(v.node) then [ChildScope(v)] else []
  {
  }

  lemma {:induction false} OpenedConcat(a: seq<Visit>, b: seq<Visit>)
    ensures Opened(a + b) == Opened(a) + Opened(b)
  {
    if b == [] {
      assert a + b == a;
    } else {
      var front, last := b[..|b| - 1], b[|b| - 1];
      OpenedConcat(a, front);
      var here := if Expandable(last.node) then [ChildScope(last)] else [];
      assert a + b == (a + front) + [last] && b == front + [last];
      assert Opened((a + front) + [last]) == Opened(a + front) + here by { OpenedSnoc(a + front, last); }
      assert Opened(front + [last]) == Opened(front) + here by { OpenedSnoc(front, last); }
      Appended(Opened(a), Opened(front), here);
    }
  }

  // ---------------------------------------------------------------- the search object

  predicate IsTerminal(e: Event) {
    e.Completed? || e.Failed?
  }

  /** A terminal event is the last one. */
  ghost predicate TerminalLast(sent: seq<Event>) {
    forall i :: 0 <= i < |sent| - 1 ==> !IsTerminal(sent[i])
  }

  ghost predicate NoTerminal(sent: seq<Event>) {
    forall e :: e in sent ==> !IsTerminal(e)
  }

  function MatchEvent(v: Visit): Event {
    Match(v.node, v.crumbs + [CrumbOf(v.node)])
  }

  function Matches(sent: seq<Event>): seq<Event> {
    if sent == [] then []
    else if sent[|sent| - 1].Match? then Matches(sent[..|sent| - 1]) + [sent[|sent| - 1]]
    else Matches(sent[..|sent| - 1])
  }

  function MatchEvents(visits: seq<Visit>): (e: seq<Event>)
    ensures |e| == |visits|
    ensures forall i :: 0 <= i < |visits| ==> e[i] == MatchEvent(visits[i])
  {
    seq(|visits|, i requires 0 <= i < |visits| => MatchEvent(visits[i]))
  }

  datatype Flow = Continue | Stop | Error

  ghost predicate Counted(r: Request, trail: seq<Visit>, visited: nat, matches: nat, ids: set<string>) {
    visited == |trail| && matches == |Selected(r, trail)| && ids == ItemsOf(Selected(r, trail))
  }

  ghost predicate Reported(r: Request, trail: seq<Visit>, sent: seq<Event>) {
    Matches(sent) == MatchEvents(Selected(r, trail))
  }

  /** What was reported is a prefix of what the walk selects (all of it if a summary was sent), and no
      summary claims to be complete. */
  ghost predicate Halted(r: Request, trail: seq<Visit>, sent: seq<Event>) {
    && Matches(sent) <= MatchEvents(Selected(r, trail))
    && TerminalLast(sent)
    && forall e :: e in sent && e.Completed? ==> !e.complete && Reported(r, trail, sent)
  }

  lemma RunningHalts(r: Request, trail: seq<Visit>, sent: seq<Event>)
    requires Reported(r, trail, sent) && NoTerminal(sent)
    ensures Halted(r, trail, sent)
    ensures Halted(r, trail, sent + [Completed(false, true)])
  {
  }

  /** The client left before the last match reached it. */
  lemma LostMatchHalts(r: Request, trail: seq<Visit>, v: Visit, sent: seq<Event>)
    requires Reported(r, trail, sent) && NoTerminal(sent)
    ensures Halted(r, trail + [v], sent)
  {
  }

  lemma VisitReported(r: Request, trail: seq<Visit>, v: Visit, sent: seq<Event>, found: bool)
    requires Reported(r, trail, sent)
    requires found == (Eligible(r, v.node) && IsNew(ItemsOf(Selected(r, trail)), v.node))
    ensures Reported(r, trail + [v], if found then sent + [MatchEvent(v)] else sent)
  {
  }

  /** A visit that matches is still to be sent; one that does not changes nothing. */
  lemma MeetOutcome(r: Request, trail: seq<Visit>, v: Visit, sent: seq<Event>)
    requires Reported(r, trail, sent) && NoTerminal(sent)
    ensures var found := Eligible(r, v.node) && IsNew(ItemsOf(Selected(r, trail)), v.node);
            if found then Reported(r, trail + [v], sent + [MatchEvent(v)]) else Reported(r, trail + [v], sent)
    ensures NoTerminal(sent + [MatchEvent(v)])
    ensures Halted(r, trail + [v], sent)
  {
    LostMatchHalts(r, trail, v, sent);
    VisitReported(r, trail, v, sent, Eligible(r, v.node) && IsNew(ItemsOf(Selected(r, trail)), v.node));
  }

  lemma MatchesAppend(sent: seq<Event>, e: Event)
    ensures Matches(sent + [e]) == Matches(sent) + if e.Match? then [e] else []
  {
  }

  lemma TrailAppend(r: Request, trail: seq<Visit>, v: Visit)
    ensures var found := Eligible(r, v.node) && IsNew(ItemsOf(Selected(r, trail)), v.node);
            Selected(r, trail + [v]) == Selected(r, trail) + if found then [v] else []
    ensures var found := Eligible(r, v.node) && IsNew(ItemsOf(Selected(r, trail)), v.node);
            ItemsOf(Selected(r, trail + [v])) == ItemsOf(Selected(r, trail))
              + if found && v.node.itemId.Some? then {v.node.itemId.value} else {}
  {
  }

  lemma OneOpened(v: Visit)
    ensures Opened([v]) == if Expandable(v.node) then [ChildScope(v)] else []
  {
  }

  class SearchContext {
    const request: Request
    const maxResults: nat
    const accepted: Option<nat>
    var matchedItemIds: set<string>
    var visitedNodes: nat
    var matches: nat
    var scopes: seq<Scope>
    var sent: seq<Event>
    ghost var trail: seq<Visit>

    /** While the search is running: counters, dedup set and stream all follow from the walk so far. */
    ghost predicate Running()
      reads this
    {
      && Counted(request, trail, visitedNodes, matches, matchedItemIds)
      && visitedNodes < MAX_SEARCH_VISITED && matches < maxResults
      && Reported(request, trail, sent) && NoTerminal(sent)
    }

    /** Once it has stopped: within both limits, and what was sent is fit to be the whole answer. */
    ghost predicate Stopped()
      reads this
    {
      && Counted(request, trail, visitedNodes, matches, matchedItemIds)
      && visitedNodes <= MAX_SEARCH_VISITED && matches <= maxResults
      && Halted(request, trail, sent)
    }

    constructor (request: Request, maxResults: nat, accepted: Option<nat>)
      requires 1 <= maxResults
      ensures this.request == request && this.maxResults == maxResults && this.accepted == accepted
      ensures Running() && trail == [] && sent == [] && scopes == [RootScope(request)]
    {
      this.request, this.maxResults, this.accepted := request, maxResults, accepted;
      matchedItemIds, visitedNodes, matches := {}, 0, 0;
      scopes, sent, trail := [RootScope(request)], [], [];
    }

    /** The client has not gone as far as anything sent shows. */
    predicate Present()
      reads this`sent
    {
      accepted.None? || |sent| < accepted.value
    }

    /** Sending succeeds until the client has gone. */
    method Send(e: Event) returns (ok: bool)
      modifies this`sent
      ensures sent == if ok then old(sent) + [e] else old(sent)
      ensures ok == old(Present())
    {
      ok := accepted.None? || |sent| < accepted.value;
      if ok {
        sent := sent + [e];
      }
    }

    /** match_node. */
    method MatchNode(node: Node) returns (found: bool)
      modifies this`matchedItemIds, this`matches
      ensures found == (Eligible(request, node) && IsNew(old(matchedItemIds), node))
      ensures matches == old(matches) + if found then 1 else 0
      ensures matchedItemIds == old(matchedItemIds) + if found && node.itemId.Some? then {node.itemId.value} else {}
    {
      var itemMatch := SearchMatches(request, node);
      var branchMatch := request.includeBranches && itemMatch;
      var hasNewItem := node.itemId.None? || node.itemId.value !in matchedItemIds;
      if !(itemMatch && hasNewItem && (node.itemId.Some? || branchMatch)) {
        return false;
      }
      if node.itemId.Some? {
        matchedItemIds := matchedItemIds + {node.itemId.value};
      }
      matches := matches + 1;
      found := true;
    }

    /** The counting half of process_node. */
    method Record(node: Node, crumbs: seq<Crumb>) returns (found: bool)
      requires Counted(request, trail, visitedNodes, matches, matchedItemIds)
      modifies this`visitedNodes, this`matchedItemIds, this`matches, this`trail
      ensures Counted(request, trail, visitedNodes, matches, matchedItemIds)
      ensures trail == old(trail) + [Visit(node, crumbs)]
      ensures visitedNodes == old(visitedNodes) + 1 && matches == old(matches) + if found then 1 else 0
      ensures found == (Eligible(request, node) && IsNew(ItemsOf(Selected(request, old(trail))), node))
    {
      TrailAppend(request, trail, Visit(node, crumbs));
      visitedNodes := visitedNodes + 1;
      found := MatchNode(node);
      trail := trail + [Visit(node, crumbs)];
    }

    /** The last event says that one of the two limits was reached, and it was. */
    ghost predicate CutShort()
      reads this
    {
      && sent != [] && sent[|sent| - 1] == Completed(false, true)
      && (|trail| == MAX_SEARCH_VISITED || |Selected(request, trail)| == maxResults)
    }

    /** A client still there when the search stopped knows that it was cut short. */
    ghost predicate Explained(flow: Flow)
      reads this
    {
      Present() ==> flow.Stop? && CutShort()
    }

    /** Stopped: cut short, left by the client, or failed for a reason that holds. */
    ghost predicate EndedAs(flow: Flow, broken: bool)
      reads this
    {
      Stopped() && (Explained(flow) || (flow.Error? && broken)) && (flow.Error? ==> NoTerminal(sent))
    }

    /** A summary that says the search was cut short; if the client has gone, an error instead. */
    method Truncate() returns (flow: Flow)
      requires Counted(request, trail, visitedNodes, matches, matchedItemIds)
      requires visitedNodes <= MAX_SEARCH_VISITED && matches <= maxResults
      requires Reported(request, trail, sent) && NoTerminal(sent)
      requires visitedNodes == MAX_SEARCH_VISITED || matches == maxResults
      modifies this`sent
      ensures !flow.Continue? && Stopped() && Explained(flow)
      ensures flow.Error? ==> NoTerminal(sent)
    {
      RunningHalts(request, trail, sent);
      var ok := Send(Completed(false, true));
      flow := if ok then Stop else Error;
    }

    /** process_node up to its result limit: count the node, and report it if it matches. */
    method Meet(node: Node, crumbs: seq<Crumb>) returns (flow: Flow)
      requires Running()
      modifies this`visitedNodes, this`matchedItemIds, this`matches, this`trail, this`sent
      ensures trail == old(trail) + [Visit(node, crumbs)]
      ensures flow.Continue? ==> Met()
      ensures !flow.Continue? ==> Stopped() && Explained(flow)
      ensures flow.Error? ==> NoTerminal(sent)
    {
      MeetOutcome(request, trail, Visit(node, crumbs), sent);
      var found := Record(node, crumbs);
      flow := Continue;
      if found {
        flow := Report(MatchEvent(Visit(node, crumbs)));
      }
    }

    /** Send a match, and stop if it was the last one allowed. */
    method Report(e: Event) returns (flow: Flow)
      requires Counted(request, trail, visitedNodes, matches, matchedItemIds)
      requires visitedNodes <= MAX_SEARCH_VISITED && matches <= maxResults
      requires Halted(request, trail, sent) && NoTerminal(sent)
      requires Reported(request, trail, sent + [e]) && NoTerminal(sent + [e])
      modifies this`sent
      ensures flow.Continue? ==> Met()
      ensures !flow.Continue? ==> Stopped() && Explained(flow)
      ensures flow.Error? ==> NoTerminal(sent)
    {
      var ok := Send(e);
      if !ok {
        return Stop;
      }
      flow := Continue;
      if matches >= maxResults {
        flow := Truncate();
      }
    }

    /** Running, but the visit limit may just have been reached. */
    ghost predicate Met()
      reads this
    {
      && Counted(request, trail, visitedNodes, matches, matchedItemIds)
      && visitedNodes <= MAX_SEARCH_VISITED && matches < maxResults
      && Reported(request, trail, sent) && NoTerminal(sent)
    }

    /** process_node. */
    method ProcessNode(node: Node, crumbs: seq<Crumb>) returns (flow: Flow)
      requires Running()
      modifies this
      ensures trail == old(trail) + [Visit(node, crumbs)]
      ensures flow.Continue? ==> Running() && scopes == old(scopes) + Opened([Visit(node, crumbs)])
      ensures !flow.Continue? ==> Stopped() && Explained(flow)
      ensures flow.Error? ==> NoTerminal(sent)
    {
      flow := Meet(node, crumbs);
      if !flow.Continue? {
        return;
      }
      OneOpened(Visit(node, crumbs));
      if Expandable(node) {
        scopes := scopes + [Scope(Some(node.key), crumbs + [CrumbOf(node)])];
      }
      if visitedNodes >= MAX_SEARCH_VISITED {
        flow := Truncate();
      }
    }

    method ProcessNodes(nodes: seq<Node>, crumbs: seq<Crumb>) returns (flow: Flow)
      requires Running()
      modifies this
      ensures trail <= old(trail) + Visits(nodes, crumbs)
      ensures flow.Continue? ==> Running() && trail == old(trail) + Visits(nodes, crumbs)
      ensures flow.Continue? ==> scopes == old(scopes) + Opened(Visits(nodes, crumbs))
      ensures !flow.Continue? ==> Stopped() && Explained(flow)
      ensures flow.Error? ==> NoTerminal(sent)
    {
      flow := Continue;
      for i := 0 to |nodes|
        invariant flow.Continue? && Running()
        invariant trail == old(trail) + Visits(nodes, crumbs)[..i]
        invariant scopes == old(scopes) + Opened(Visits(nodes, crumbs)[..i])
      {
        NodesStep(old(trail), old(scopes), nodes, crumbs, i);
        flow := ProcessNode(nodes[i], crumbs);
        if !flow.Continue? {
          return;
        }
      }
      assert Visits(nodes, crumbs)[..|nodes|] == Visits(nodes, crumbs);
    }

    /** process_page. */
    method ProcessPage(nodes: seq<Node>, partial: bool, crumbs: seq<Crumb>) returns (flow: Flow)
      requires Running()
      modifies this
      ensures trail <= old(trail) + Visits(nodes, crumbs)
      ensures flow.Continue? ==> Running() && trail == old(trail) + Visits(nodes, crumbs)
      ensures flow.Continue? ==> scopes == old(scopes) + Opened(Visits(nodes, crumbs))
      ensures !flow.Continue? ==> Stopped() && Explained(flow)
      ensures flow.Error? ==> NoTerminal(sent)
    {
      flow := ProcessNodes(nodes, crumbs);
      if flow.Continue? {
        flow := ReportProgress(partial);
      }
    }

    method ReportProgress(partial: bool) returns (flow: Flow)
      requires Running()
      modifies this`sent
      ensures flow.Continue? ==> Running() && sent == old(sent) + [Progress(|trail|, |Selected(request, trail)|, partial)]
      ensures !flow.Continue? ==> flow.Stop? && Stopped() && !Present()
    {
      MatchesAppend(sent, Progress(visitedNodes, matches, partial));
      RunningHalts(request, trail, sent);
      var ok := Send(Progress(visitedNodes, matches, partial));
      flow := if ok then Continue else Stop;
    }

    /** process_scope: page after page until the last, or until a browse call fails. */
    method ProcessScope(ns: Namespace, scope: Scope) returns (flow: Flow)
      requires Running()
      modifies this
      ensures trail <= old(trail) + Listed(ns, scope)
      ensures flow.Continue? ==> Running() && trail == old(trail) + Listed(ns, scope)
      ensures flow.Continue? ==> scopes == old(scopes) + Opened(Listed(ns, scope))
      ensures flow.Continue? ==> !Broken(ns, scope)
      ensures !flow.Continue? ==> EndedAs(flow, Broken(ns, scope))
    {
      var listing := ns(scope.parent);
      var page := 0;
      while true
        invariant 0 <= page <= |listing.pages| && Running()
        invariant page == 0 || page < |listing.pages| || listing.fails
        invariant trail == old(trail) + Paged(listing, page, scope)
        invariant scopes == old(scopes) + Opened(Paged(listing, page, scope))
        decreases |listing.pages| - page
      {
        PagesPrefix(old(trail), listing, page, scope);
        if page == |listing.pages| {
          RunningHalts(request, trail, sent);
          return Error;
        }
        PagesStep(old(trail), old(scopes), listing, page, scope);
        PagesPrefix(old(trail), listing, page + 1, scope);
        var more := page + 1 < |listing.pages| || listing.fails;
        flow := ProcessPage(listing.pages[page], more, scope.crumbs);
        if !flow.Continue? {
          return;
        }
        page := page + 1;
        if !more {
          assert listing.pages[..page] == listing.pages;
          return;
        }
      }
    }

    method PopScope(ns: Namespace, ghost cause: bool) returns (flow: Flow)
      requires Running() && scopes != [] && (Broken(ns, scopes[0]) ==> cause)
      modifies this
      ensures trail <= old(trail) + Listed(ns, old(scopes[0]))
      ensures flow.Continue? ==> Running() && trail == old(trail) + Listed(ns, old(scopes[0]))
      ensures flow.Continue? ==> scopes == old(scopes[1..]) + Opened(Listed(ns, old(scopes[0])))
      ensures flow.Continue? ==> 2 * visitedNodes - |scopes| > 2 * old(visitedNodes) - |old(scopes)|
      ensures flow.Continue? ==> !Broken(ns, old(scopes[0]))
      ensures !flow.Continue? ==> EndedAs(flow, cause)
    {
      var scope := scopes[0];
      scopes := scopes[1..];
      flow := ProcessScope(ns, scope);
    }

    /** One turn of the queue loop. */
    method WalkScope(ns: Namespace, ghost root: Scope, ghost d: nat, ghost i: nat, ghost cause: bool)
      returns (flow: Flow, ghost e: nat, ghost k: nat)
      requires Running() && Place(ns, root, d, i, trail, scopes) && scopes != [] && (SomeBroken(ns, root) ==> cause)
      modifies this
      ensures flow.Continue? ==> Running() && Place(ns, root, e, k, trail, scopes)
      ensures flow.Continue? ==> 2 * visitedNodes - |scopes| > 2 * old(visitedNodes) - |old(scopes)|
      ensures !flow.Continue? ==> EndedAs(flow, cause) && trail <= BreadthFirst(ns, root, e)
    {
      e, k := PlacePop(ns, root, d, i, trail, scopes);
      flow := PopScope(ns, cause);
      if flow.Continue? {
        k := k + 1;
      } else {
        e := e + 1;
      }
    }

    /** The queue loop of run_search_inner. */
    method Walk(ns: Namespace) returns (flow: Flow, ghost depth: nat)
      requires Running() && trail == [] && scopes == [RootScope(request)]
      modifies this
      ensures trail <= BreadthFirst(ns, RootScope(request), depth)
      ensures flow.Continue? ==> Running() && Exhausted(ns, RootScope(request), depth, trail)
      ensures !flow.Continue? ==> EndedAs(flow, SomeBroken(ns, RootScope(request)))
    {
      ghost var root := RootScope(request);
      depth := 0;
      ghost var i: nat := 0;
      FrontierStart(ns, root);
      while scopes != []
        invariant Running() && Place(ns, root, depth, i, trail, scopes)
        decreases 2 * (MAX_SEARCH_VISITED - visitedNodes) + |scopes|
      {
        flow, depth, i := WalkScope(ns, root, depth, i, SomeBroken(ns, root));
        if !flow.Continue? {
          return;
        }
      }
      PlaceEmpty(ns, root, depth, i, trail, scopes);
      depth := depth + 1;
      flow := Continue;
    }

    /** run_search_inner: `depth` levels of the namespace bound what was visited. */
    method SearchInner(ns: Namespace) returns (flow: Flow, ghost depth: nat)
      requires Running() && trail == [] && scopes == [RootScope(request)]
      modifies this
      ensures Answered(ns, depth)
      ensures flow.Error? ==> NoTerminal(sent)
      ensures Present() ==> if flow.Error? then SomeBroken(ns, RootScope(request)) else Concluded(ns, depth)
      ensures !flow.Continue?
    {
      depth := 0;
      flow := ReportProgress(false);
      if !flow.Continue? {
        return;
      }
      flow, depth := Walk(ns);
      if flow.Continue? {
        CompletionKeeps(request, trail, sent);
        var ok := Send(Completed(true, false));
        flow := if ok then Stop else Error;
      }
    }

    /** run_search: an error is reported as the last event, if the client is still there. */
    method Search(ns: Namespace) returns (ghost depth: nat)
      requires Running() && trail == [] && scopes == [RootScope(request)]
      modifies this
      ensures Answered(ns, depth)
      ensures Present() ==> Ending(request, ns, depth, maxResults, trail, sent)
    {
      var flow;
      flow, depth := SearchInner(ns);
      if flow.Error? {
        FailureKeeps(request, trail, sent);
        var ok := Send(Failed);
      }
    }

    /** The last event is a summary: of the whole walk, or that a limit was reached. */
    ghost predicate Concluded(ns: Namespace, depth: nat)
      reads this
    {
      CutShort() || CoveredAll(request, ns, depth, maxResults, trail, sent)
    }

    ghost predicate Answered(ns: Namespace, depth: nat)
      reads this
    {
      Answers(request, ns, depth, maxResults, trail, sent)
    }
  }

  /** What every search guarantees: at most maxResults matches from at most 50,000 visits, a terminal event
      last if at all, the matches a prefix of those of the breadth-first walk; and a summary that says
      complete means the walk covered every level and every match was reported. */
  ghost predicate Answers(r: Request, ns: Namespace, depth: nat, maxResults: nat, trail: seq<Visit>, sent: seq<Event>) {
    && |Matches(sent)| <= maxResults
    && |trail| <= MAX_SEARCH_VISITED
    && TerminalLast(sent)
    && trail <= BreadthFirst(ns, RootScope(r), depth)
    && Matches(sent) <= MatchEvents(Selected(r, trail))
    && (forall e :: e in sent && e.Completed? ==> Reported(r, trail, sent))
    && (forall e :: e in sent && e.Completed? && e.complete ==>
          Level(ns, RootScope(r), depth) == [] && trail == BreadthFirst(ns, RootScope(r), depth))
  }

  /** The search went through every level, within both limits, without a failing listing, and says so. */
  ghost predicate CoveredAll(r: Request, ns: Namespace, depth: nat, maxResults: nat, trail: seq<Visit>, sent: seq<Event>) {
    && sent != [] && sent[|sent| - 1] == Completed(true, false)
    && Coverable(r, ns, maxResults, depth) && trail == BreadthFirst(ns, RootScope(r), depth)
  }

  /** The first `depth` levels are all there is, within both limits, and no listing among them fails. */
  ghost predicate Coverable(r: Request, ns: Namespace, maxResults: nat, depth: nat) {
    && Level(ns, RootScope(r), depth) == []
    && |BreadthFirst(ns, RootScope(r), depth)| < MAX_SEARCH_VISITED
    && |Selected(r, BreadthFirst(ns, RootScope(r), depth))| < maxResults
    && NoneBroken(ns, RootScope(r), depth)
  }

  /** How a search ends for a client that stays: covered, cut short at a limit, or failed at a failing listing. */
  ghost predicate Ending(r: Request, ns: Namespace, depth: nat, maxResults: nat, trail: seq<Visit>, sent: seq<Event>) {
    || CoveredAll(r, ns, depth, maxResults, trail, sent)
    || (sent != [] && sent[|sent| - 1] == Completed(false, true) &&
        (|trail| == MAX_SEARCH_VISITED || |Selected(r, trail)| == maxResults))
    || (sent != [] && sent[|sent| - 1] == Failed && SomeBroken(ns, RootScope(r)))
  }

  /** A listing that fails before its last page, or yields none. */
  predicate Broken(ns: Namespace, s: Scope) {
    ns(s.parent).fails || ns(s.parent).pages == []
  }

  predicate NoneBrokenIn(ns: Namespace, scopes: seq<Scope>) {
    forall s :: s in scopes ==> !Broken(ns, s)
  }

  ghost predicate NoneBroken(ns: Namespace, root: Scope, d: nat) {
    forall e :: 0 <= e < d ==> NoneBrokenIn(ns, Level(ns, root, e))
  }

  ghost predicate SomeBroken(ns: Namespace, root: Scope) {
    exists e: nat :: !NoneBrokenIn(ns, Level(ns, root, e))
  }

  /** No listing that the walk has been through failed. */
  ghost predicate Unbroken(ns: Namespace, root: Scope, d: nat, i: nat) {
    NoneBroken(ns, root, d) && i <= |Level(ns, root, d)| && NoneBrokenIn(ns, Level(ns, root, d)[..i])
  }

  /** Where the walk stands, all listings up to there having gone well. */
  ghost predicate Place(ns: Namespace, root: Scope, d: nat, i: nat, trail: seq<Visit>, scopes: seq<Scope>) {
    Frontier(ns, root, d, i, trail, scopes) && Unbroken(ns, root, d, i)
  }

  /** Popping a scope: listing it well moves on, and if it fails a listing of the walk fails. */
  lemma PlacePop(ns: Namespace, root: Scope, d: nat, i: nat, trail: seq<Visit>, scopes: seq<Scope>)
    returns (e: nat, k: nat)
    requires Place(ns, root, d, i, trail, scopes) && scopes != []
    ensures !Broken(ns, scopes[0]) ==>
              Place(ns, root, e, k + 1, trail + Listed(ns, scopes[0]), scopes[1..] + Opened(Listed(ns, scopes[0])))
    ensures Broken(ns, scopes[0]) ==> SomeBroken(ns, root)
    ensures trail + Listed(ns, scopes[0]) <= BreadthFirst(ns, root, e + 1)
  {
    e, k := FrontierPop(ns, root, d, i, trail, scopes);
    assert scopes[0] in Level(ns, root, e);
    if Broken(ns, scopes[0]) {
      assert !NoneBrokenIn(ns, Level(ns, root, e));
    } else {
      UnbrokenNext(ns, root, d, i, e, k);
    }
  }

  /** The walk has been through all there is. */
  ghost predicate Exhausted(ns: Namespace, root: Scope, depth: nat, trail: seq<Visit>) {
    Level(ns, root, depth) == [] && trail == BreadthFirst(ns, root, depth) && NoneBroken(ns, root, depth)
  }

  lemma PlaceEmpty(ns: Namespace, root: Scope, d: nat, i: nat, trail: seq<Visit>, scopes: seq<Scope>)
    requires Place(ns, root, d, i, trail, scopes) && scopes == []
    ensures Exhausted(ns, root, d + 1, trail)
  {
    FrontierEmpty(ns, root, d, i, trail, scopes);
    assert Level(ns, root, d)[..i] == Level(ns, root, d);
  }

  lemma UnbrokenNext(ns: Namespace, root: Scope, d: nat, i: nat, e: nat, k: nat)
    requires Unbroken(ns, root, d, i) && k < |Level(ns, root, e)| && !Broken(ns, Level(ns, root, e)[k])
    requires (e == d && k == i) || (e == d + 1 && k == 0 && i == |Level(ns, root, d)|)
    ensures Unbroken(ns, root, e, k + 1)
  {
    var level := Level(ns, root, e);
    if e == d + 1 {
      LevelDone(ns, root, d, i);
    }
    OneMoreUnbroken(ns, level, k);
  }

  lemma LevelDone(ns: Namespace, root: Scope, d: nat, i: nat)
    requires Unbroken(ns, root, d, i) && i == |Level(ns, root, d)|
    ensures NoneBroken(ns, root, d + 1)
  {
    assert Level(ns, root, d)[..i] == Level(ns, root, d);
  }

  lemma OneMoreUnbroken(ns: Namespace, level: seq<Scope>, k: nat)
    requires k < |level| && NoneBrokenIn(ns, level[..k]) && !Broken(ns, level[k])
    ensures NoneBrokenIn(ns, level[..k + 1])
  {
    assert level[..k + 1] == level[..k] + [level[k]];
  }

  lemma CompletionKeeps(r: Request, trail: seq<Visit>, sent: seq<Event>)
    requires Reported(r, trail, sent) && NoTerminal(sent)
    ensures Reported(r, trail, sent + [Completed(true, false)]) && TerminalLast(sent + [Completed(true, false)])
  {
  }

  lemma FailureKeeps(r: Request, trail: seq<Visit>, sent: seq<Event>)
    requires NoTerminal(sent)
    ensures Matches(sent + [Failed]) == Matches(sent) && TerminalLast(sent + [Failed])
    ensures forall e :: e in sent + [Failed] ==> !e.Completed?
  {
  }

  // ---------------------------------------------------------------- the queue is the level order

  ghost predicate FrontierAt(
    ns: Namespace, before: seq<Visit>, level: seq<Scope>, i: nat, trail: seq<Visit>, scopes: seq<Scope>) {
    && i <= |level|
    && trail == before + AllListed(ns, level[..i])
    && scopes == level[i..] + Opened(AllListed(ns, level[..i]))
  }

  /** The queue holds the rest of level d, then what its first i scopes opened. */
  ghost predicate Frontier(ns: Namespace, root: Scope, d: nat, i: nat, trail: seq<Visit>, scopes: seq<Scope>) {
    FrontierAt(ns, BreadthFirst(ns, root, d), Level(ns, root, d), i, trail, scopes)
  }

  lemma FrontierStart(ns: Namespace, root: Scope)
    ensures Frontier(ns, root, 0, 0, [], [root])
  {
  }

  lemma FrontierNext(ns: Namespace, root: Scope, d: nat, trail: seq<Visit>, scopes: seq<Scope>)
    requires Frontier(ns, root, d, |Level(ns, root, d)|, trail, scopes)
    ensures Frontier(ns, root, d + 1, 0, trail, scopes)
    ensures trail == BreadthFirst(ns, root, d + 1) && scopes == Level(ns, root, d + 1)
  {
    var level := Level(ns, root, d);
    assert level[..|level|] == level && level[|level|..] == [];
    assert Level(ns, root, d + 1)[..0] == [];
  }

  /** Where the next scope to pop stands: in this level, or first in the next if this one is done. */
  lemma FrontierTurn(ns: Namespace, root: Scope, d: nat, i: nat, trail: seq<Visit>, scopes: seq<Scope>)
    returns (e: nat, k: nat)
    requires Frontier(ns, root, d, i, trail, scopes) && scopes != []
    ensures Frontier(ns, root, e, k, trail, scopes) && k < |Level(ns, root, e)|
    ensures (e == d && k == i) || (e == d + 1 && k == 0 && i == |Level(ns, root, d)|)
  {
    e, k := d, i;
    if i == |Level(ns, root, d)| {
      FrontierNext(ns, root, d, trail, scopes);
      e, k := d + 1, 0;
    }
  }

  /** Popping a scope and listing it moves one place along a level. */
  lemma FrontierPop(ns: Namespace, root: Scope, d: nat, i: nat, trail: seq<Visit>, scopes: seq<Scope>)
    returns (e: nat, k: nat)
    requires Frontier(ns, root, d, i, trail, scopes) && scopes != []
    ensures (e == d && k == i) || (e == d + 1 && k == 0 && i == |Level(ns, root, d)|)
    ensures k < |Level(ns, root, e)| && scopes[0] == Level(ns, root, e)[k]
    ensures Frontier(ns, root, e, k + 1, trail + Listed(ns, scopes[0]), scopes[1..] + Opened(Listed(ns, scopes[0])))
    ensures trail + Listed(ns, scopes[0]) <= BreadthFirst(ns, root, e + 1)
  {
    e, k := FrontierTurn(ns, root, d, i, trail, scopes);
    FrontierStep(ns, root, e, k, trail, scopes);
    FrontierBound(ns, root, e, k + 1, trail + Listed(ns, scopes[0]), scopes[1..] + Opened(Listed(ns, scopes[0])));
  }

  lemma AllListedStep(ns: Namespace, level: seq<Scope>, i: nat)
    requires i < |level|
    ensures AllListed(ns, level[..i + 1]) == AllListed(ns, level[..i]) + Listed(ns, level[i])
    ensures Opened(AllListed(ns, level[..i + 1])) == Opened(AllListed(ns, level[..i])) + Opened(Listed(ns, level[i]))
  {
    assert level[..i + 1][..i] == level[..i];
    OpenedConcat(AllListed(ns, level[..i]), Listed(ns, level[i]));
  }

  lemma FrontierStepAt(ns: Namespace, before: seq<Visit>, level: seq<Scope>, i: nat, trail: seq<Visit>, scopes: seq<Scope>)
    requires FrontierAt(ns, before, level, i, trail, scopes) && i < |level|
    ensures scopes != [] && scopes[0] == level[i]
    ensures FrontierAt(ns, before, level, i + 1, trail + Listed(ns, level[i]), scopes[1..] + Opened(Listed(ns, level[i])))
  {
    var done, here := AllListed(ns, level[..i]), Listed(ns, level[i]);
    AllListedStep(ns, level, i);
    Appended(before, done, here);
    QueueStep(level, i, Opened(done), Opened(here));
  }

  lemma FrontierStep(ns: Namespace, root: Scope, d: nat, i: nat, trail: seq<Visit>, scopes: seq<Scope>)
    requires Frontier(ns, root, d, i, trail, scopes) && i < |Level(ns, root, d)|
    ensures scopes != [] && scopes[0] == Level(ns, root, d)[i]
    ensures Frontier(ns, root, d, i + 1, trail + Listed(ns, scopes[0]), scopes[1..] + Opened(Listed(ns, scopes[0])))
  {
    FrontierStepAt(ns, BreadthFirst(ns, root, d), Level(ns, root, d), i, trail, scopes);
  }

  lemma Appended<X>(x: seq<X>, y: seq<X>, z: seq<X>)
    ensures x + y + z == x + (y + z)
  {
  }

  lemma QueueStep<X>(level: seq<X>, i: nat, behind: seq<X>, more: seq<X>)
    requires i < |level|
    ensures level[i..] + behind != [] && (level[i..] + behind)[0] == level[i]
    ensures (level[i..] + behind)[1..] + more == level[i + 1..] + (behind + more)
  {
  }

  lemma {:induction false} AllListedPrefix(ns: Namespace, scopes: seq<Scope>, n: nat)
    requires n <= |scopes|
    ensures AllListed(ns, scopes[..n]) <= AllListed(ns, scopes)
    decreases |scopes| - n
  {
    if n == |scopes| {
      assert scopes[..n] == scopes;
    } else {
      AllListedPrefix(ns, scopes, n + 1);
      assert scopes[..n + 1][..n] == scopes[..n];
    }
  }

  lemma FrontierBound(ns: Namespace, root: Scope, d: nat, i: nat, trail: seq<Visit>, scopes: seq<Scope>)
    requires Frontier(ns, root, d, i, trail, scopes)
    ensures trail <= BreadthFirst(ns, root, d + 1)
  {
    AllListedPrefix(ns, Level(ns, root, d), i);
  }

  lemma FrontierEmpty(ns: Namespace, root: Scope, d: nat, i: nat, trail: seq<Visit>, scopes: seq<Scope>)
    requires Frontier(ns, root, d, i, trail, scopes) && scopes == []
    ensures Level(ns, root, d + 1) == [] && trail == BreadthFirst(ns, root, d + 1) && i == |Level(ns, root, d)|
  {
    assert i == |Level(ns, root, d)|;
    FrontierNext(ns, root, d, trail, scopes);
  }


  /** What the first n pages of a scope's listing show. */
  ghost function Paged(listing: Listing, n: nat, scope: Scope): seq<Visit>
    requires n <= |listing.pages|
  {
    Visits(Joined(listing.pages[..n]), scope.crumbs)
  }

  lemma NodesStep(trail: seq<Visit>, scopes: seq<Scope>, nodes: seq<Node>, crumbs: seq<Crumb>, i: nat)
    requires i < |nodes|
    ensures var all := Visits(nodes, crumbs);
            && trail + all[..i] + [Visit(nodes[i], crumbs)] == trail + all[..i + 1]
            && trail + all[..i + 1] <= trail + all
            && scopes + Opened(all[..i]) + Opened([Visit(nodes[i], crumbs)]) == scopes + Opened(all[..i + 1])
  {
    var all := Visits(nodes, crumbs);
    assert all[..i + 1] == all[..i] + [Visit(nodes[i], crumbs)];
    OpenedConcat(all[..i], [Visit(nodes[i], crumbs)]);
  }

  lemma {:induction false} PagesPrefix(trail: seq<Visit>, listing: Listing, n: nat, scope: Scope)
    requires n <= |listing.pages|
    ensures trail + Paged(listing, n, scope) <= trail + Visits(Joined(listing.pages), scope.crumbs)
    decreases |listing.pages| - n
  {
    if n == |listing.pages| {
      assert listing.pages[..n] == listing.pages;
    } else {
      PagesPrefix(trail, listing, n + 1, scope);
      PagesStep(trail, [], listing, n, scope);
    }
  }

  lemma PagesStep(trail: seq<Visit>, scopes: seq<Scope>, listing: Listing, n: nat, scope: Scope)
    requires n < |listing.pages|
    ensures var here := Visits(listing.pages[n], scope.crumbs);
            && trail + Paged(listing, n, scope) + here == trail + Paged(listing, n + 1, scope)
            && scopes + Opened(Paged(listing, n, scope)) + Opened(here) == scopes + Opened(Paged(listing, n + 1, scope))
  {
    var pages := listing.pages;
    var here := Visits(pages[n], scope.crumbs);
    assert pages[..n + 1][..n] == pages[..n];
    assert Joined(pages[..n + 1]) == Joined(pages[..n]) + pages[n];
    assert Paged(listing, n + 1, scope) == Paged(listing, n, scope) + here;
    OpenedConcat(Paged(listing, n, scope), here);
  }
}
