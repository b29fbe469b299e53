/**
  What a complete live search has covered: exactly the nodes at the end of a path from the root, each with
  that path as its breadcrumbs.
*/
module LivePaths {
  import opened Prelude
  import opened LiveSearch

  function Last<X>(s: seq<X>): X
    requires s != []
  {
    s[|s| - 1]
  }

  function Front<X>(s: seq<X>): seq<X>
    requires s != []
  {
    s[..|s| - 1]
  }

  // ---------------------------------------------------------------- reachability, without the walk

  predicate Lists(ns: Namespace, parent: Option<Key>, n: Node) {
    exists p :: 0 <= p < |ns(parent).pages| && n in ns(parent).pages[p]
  }

  /** Node i is listed under the one before it, which is no mere item, and the first node under `from`. */
  predicate StepAt(ns: Namespace, from: Option<Key>, path: seq<Node>, i: nat)
    requires i < |path|
  {
    if i == 0 then Lists(ns, from, path[0])
    else path[i - 1].kind != Item && Lists(ns, Some(path[i - 1].key), path[i])
  }

  ghost predicate IsPath(ns: Namespace, from: Option<Key>, path: seq<Node>) {
    path != [] && forall i :: 0 <= i < |path| ==> StepAt(ns, from, path, i)
  }

  function Names(path: seq<Node>): (c: seq<Crumb>)
    ensures |c| == |path| && forall i :: 0 <= i < |path| ==> c[i] == Crumb(path[i].key, path[i].display)
  {
    seq(|path|, i requires 0 <= i < |path| => Crumb(path[i].key, path[i].display))
  }

  /** The event for the end of a path: its breadcrumbs are the node searched below, if any, and the path. */
  function PathEvent(r: Request, path: seq<Node>): Event
    requires path != []
  {
    Match(Last(path), (if r.root.Some? then [Crumb(r.root.value, "")] else []) + Names(path))
  }

  ghost predicate Within(text: string, value: string) {
    exists i: nat :: WithinAt(text, value, i)
  }

  predicate WithinAt(text: string, value: string, i: nat) {
    i + |text| <= |value| && value[i..i + |text|] == text
  }

  ghost predicate Hits(r: Request, value: string) {
    && (r.mode == Exact ==> value == r.text)
    && (r.mode == Prefix ==> |r.text| <= |value| && value[..|r.text|] == r.text)
    && (r.mode == Infix ==> Within(r.text, value))
  }

  /** What a request asks for: the text in the display name or in the ItemID, and an ItemID unless branches are
      wanted too. */
  ghost predicate Asked(r: Request, n: Node) {
    (Hits(r, n.display) || (n.itemId.Some? && Hits(r, n.itemId.value))) && (n.itemId.Some? || r.includeBranches)
  }

  lemma {:induction false} ContainsIsWithin(value: string, text: string)
    ensures Contains(value, text) <==> Within(text, value)
  {
    if text <= value {
      assert WithinAt(text, value, 0);
    } else if value != [] {
      ContainsIsWithin(value[1..], text);
      if Within(text, value[1..]) {
        var i: nat :| WithinAt(text, value[1..], i);
        OneFurther(text, value, i);
      }
      if Within(text, value) {
        var i: nat :| WithinAt(text, value, i);
        OneFurther(text, value, i - 1);
      }
    }
  }

  lemma OneFurther(text: string, value: string, i: nat)
    requires value != []
    ensures WithinAt(text, value, i + 1) <==> WithinAt(text, value[1..], i)
  {
    if i + 1 + |text| <= |value| {
      assert value[i + 1..i + 1 + |text|] == value[1..][i..i + |text|];
    }
  }

  lemma EligibleIsAsked(r: Request, n: Node)
    ensures Eligible(r, n) <==> Asked(r, n)
  {
    ContainsIsWithin(n.display, r.text);
    if n.itemId.Some? {
      ContainsIsWithin(n.itemId.value, r.text);
    }
  }

  lemma {:induction false} JoinedIsLists(pages: seq<seq<Node>>, n: Node)
    ensures n in Joined(pages) <==> exists p :: 0 <= p < |pages| && n in pages[p]
  {
    if pages != [] {
      JoinedIsLists(pages[..|pages| - 1], n);
      assert n in pages[|pages| - 1] ==> n in Joined(pages);
    }
  }

  // ---------------------------------------------------------------- the walk's scopes and paths

  function CrumbsTo(root: Scope, path: seq<Node>): seq<Crumb> {
    root.crumbs + Names(path)
  }

  /** The scope a path leads into. */
  function ScopeAt(root: Scope, path: seq<Node>): Scope {
    if path == [] then root else Scope(Some(Last(path).key), CrumbsTo(root, path))
  }

  ghost predicate LeadsOn(ns: Namespace, root: Scope, path: seq<Node>) {
    path == [] || (IsPath(ns, root.parent, path) && Expandable(Last(path)))
  }

  /** A path is a node listed in the scope that the path before it leads into. */
  lemma PathEnd(ns: Namespace, root: Scope, path: seq<Node>)
    requires path != []
    ensures IsPath(ns, root.parent, path) <==>
            Last(path) in Joined(ns(ScopeAt(root, Front(path)).parent).pages) && LeadsOn(ns, root, Front(path))
  {
    var front, n := Front(path), |path| - 1;
    JoinedIsLists(ns(ScopeAt(root, front).parent).pages, Last(path));
    assert forall i :: 0 <= i < n ==> (StepAt(ns, root.parent, front, i) <==> StepAt(ns, root.parent, path, i));
    assert StepAt(ns, root.parent, path, n) <==>
           (n > 0 ==> Last(front).kind != Item) && Lists(ns, ScopeAt(root, front).parent, Last(path));
  }

  /** The visit at the end of a path: its breadcrumbs are the nodes before it. */
  function VisitAt(root: Scope, path: seq<Node>): Visit
    requires path != []
  {
    Visit(Last(path), CrumbsTo(root, Front(path)))
  }

  lemma ScopeOfPath(root: Scope, path: seq<Node>)
    requires path != []
    ensures ChildScope(VisitAt(root, path)) == ScopeAt(root, path)
  {
    assert Names(path) == Names(Front(path)) + [CrumbOf(Last(path))];
  }

  lemma {:induction false} OpenedMembers(visits: seq<Visit>)
    ensures forall s :: s in Opened(visits) ==> exists v :: v in visits && Expandable(v.node) && s == ChildScope(v)
    ensures forall v :: v in visits && Expandable(v.node) ==> ChildScope(v) in Opened(visits)
  {
    if visits != [] {
      var front, last := visits[..|visits| - 1], visits[|visits| - 1];
      OpenedMembers(front);
      assert visits == front + [last];
      forall s | s in Opened(visits) ensures exists v :: v in visits && Expandable(v.node) && s == ChildScope(v) {
        if s in Opened(front) {
          var v :| v in front && Expandable(v.node) && s == ChildScope(v);
          assert v in visits;
        } else {
          assert last in visits;
        }
      }
    }
  }

  lemma {:induction false} AllListedMembers(ns: Namespace, scopes: seq<Scope>)
    ensures forall v :: v in AllListed(ns, scopes) ==> exists s :: s in scopes && v in Listed(ns, s)
    ensures forall s, v :: s in scopes && v in Listed(ns, s) ==> v in AllListed(ns, scopes)
  {
    if scopes != [] {
      var front, last := scopes[..|scopes| - 1], scopes[|scopes| - 1];
      AllListedMembers(ns, front);
      assert scopes == front + [last];
      forall v | v in AllListed(ns, scopes) ensures exists s :: s in scopes && v in Listed(ns, s) {
        if v in AllListed(ns, front) {
          var s :| s in front && v in Listed(ns, s);
          assert s in scopes;
        } else {
          assert last in scopes;
        }
      }
    }
  }

  lemma {:induction false} LevelToPath(ns: Namespace, root: Scope, d: nat, s: Scope) returns (path: seq<Node>)
    requires s in Level(ns, root, d)
    ensures |path| == d && LeadsOn(ns, root, path) && s == ScopeAt(root, path)
    decreases d, 0
  {
    if d == 0 {
      path := [];
    } else {
      OpenedMembers(AllListed(ns, Level(ns, root, d - 1)));
      var v :| v in AllListed(ns, Level(ns, root, d - 1)) && Expandable(v.node) && s == ChildScope(v);
      path := VisitToPath(ns, root, d - 1, v);
      ScopeOfPath(root, path);
    }
  }

  lemma {:induction false} VisitToPath(ns: Namespace, root: Scope, d: nat, v: Visit) returns (path: seq<Node>)
    requires v in AllListed(ns, Level(ns, root, d))
    ensures |path| == d + 1 && IsPath(ns, root.parent, path) && v == VisitAt(root, path)
    decreases d, 1
  {
    AllListedMembers(ns, Level(ns, root, d));
    var s :| s in Level(ns, root, d) && v in Listed(ns, s);
    var front := LevelToPath(ns, root, d, s);
    path := front + [v.node];
    assert Front(path) == front && Last(path) == v.node;
    assert [] + Names([]) == [] && root.crumbs + Names([]) == root.crumbs;
    assert s.crumbs == CrumbsTo(root, front);
    PathEnd(ns, root, path);
  }

  lemma {:induction false} PathToLevel(ns: Namespace, root: Scope, path: seq<Node>)
    requires LeadsOn(ns, root, path)
    ensures ScopeAt(root, path) in Level(ns, root, |path|)
    decreases |path|, 1
  {
    if path != [] {
      PathToVisit(ns, root, path);
      OpenedMembers(AllListed(ns, Level(ns, root, |path| - 1)));
      ScopeOfPath(root, path);
    }
  }

  lemma {:induction false} PathToVisit(ns: Namespace, root: Scope, path: seq<Node>)
    requires IsPath(ns, root.parent, path)
    ensures VisitAt(root, path) in AllListed(ns, Level(ns, root, |path| - 1))
    decreases |path|, 0
  {
    var front := Front(path);
    PathEnd(ns, root, path);
    PathToLevel(ns, root, front);
    AllListedMembers(ns, Level(ns, root, |front|));
    var s := ScopeAt(root, front);
    var nodes := Joined(ns(s.parent).pages);
    var i :| 0 <= i < |nodes| && nodes[i] == Last(path);
    assert root.crumbs + Names([]) == root.crumbs;
    assert Listed(ns, s)[i] == VisitAt(root, path);
  }

  lemma {:induction false} Prefixes(ns: Namespace, root: Scope, path: seq<Node>, n: nat)
    requires IsPath(ns, root.parent, path) && n < |path|
    ensures LeadsOn(ns, root, path[..n])
  {
    PathEnd(ns, root, path);
    if n < |path| - 1 {
      Prefixes(ns, root, Front(path), n);
      assert Front(path)[..n] == path[..n];
    }
  }

  predicate InLevel(ns: Namespace, root: Scope, e: nat, v: Visit) {
    v in AllListed(ns, Level(ns, root, e))
  }

  lemma {:induction false} LevelOf(ns: Namespace, root: Scope, d: nat, v: Visit) returns (e: nat)
    requires v in BreadthFirst(ns, root, d)
    ensures e < d && InLevel(ns, root, e, v)
  {
    e := d - 1;
    if v in BreadthFirst(ns, root, d - 1) {
      e := LevelOf(ns, root, d - 1, v);
    }
  }

  lemma {:induction false} LevelWalked(ns: Namespace, root: Scope, d: nat, e: nat, v: Visit)
    requires e < d && InLevel(ns, root, e, v)
    ensures v in BreadthFirst(ns, root, d)
  {
    if e < d - 1 {
      LevelWalked(ns, root, d - 1, e, v);
    }
  }

  /** Once a level is empty, the breadth-first walk has met exactly the ends of all paths. */
  lemma WalkCoversPaths(ns: Namespace, root: Scope, d: nat, v: Visit)
    requires Level(ns, root, d) == []
    ensures v in BreadthFirst(ns, root, d) <==> exists path :: IsPath(ns, root.parent, path) && v == VisitAt(root, path)
  {
    if v in BreadthFirst(ns, root, d) {
      var e := LevelOf(ns, root, d, v);
      var path := VisitToPath(ns, root, e, v);
    }
    forall path | IsPath(ns, root.parent, path) && v == VisitAt(root, path) ensures v in BreadthFirst(ns, root, d) {
      if |path| > d {
        Prefixes(ns, root, path, d);
        PathToLevel(ns, root, path[..d]);
      }
      PathToVisit(ns, root, path);
      LevelWalked(ns, root, d, |path| - 1, v);
    }
  }

  ghost predicate EndsPath(ns: Namespace, r: Request, v: Visit) {
    exists path :: IsPath(ns, r.root, path) && v == VisitAt(RootScope(r), path)
  }

  /** A visit that comes first of its item is reported. */
  lemma FirstIsReported(r: Request, trail: seq<Visit>, i: nat)
    requires i < |trail| && FirstOfItem(r, trail, i)
    ensures trail[i] in Selected(r, trail)
  {
    SelectedMeaning(r, trail, i);
    SelectedPrefix(r, trail, i + 1);
    assert trail[i] in Selected(r, trail[..i + 1]);
  }

  /** The visit reported in place of an eligible one: itself, or an earlier one to the same ItemID. */
  lemma {:induction false} Representative(r: Request, trail: seq<Visit>, i: nat) returns (j: nat)
    requires i < |trail| && Eligible(r, trail[i].node)
    ensures j <= i && Eligible(r, trail[j].node) && trail[j].node.itemId == trail[i].node.itemId
    ensures trail[j] in Selected(r, trail)
    ensures trail[i].node.itemId.None? ==> j == i
    decreases i
  {
    if FirstOfItem(r, trail, i) {
      j := i;
      FirstIsReported(r, trail, i);
    } else {
      var k :| 0 <= k < i && Eligible(r, trail[k].node) && trail[k].node.itemId == trail[i].node.itemId;
      j := Representative(r, trail, k);
    }
  }

  /** v is reported, or, if it names an item, a visit to the same ItemID that the walk meets no later. */
  ghost predicate Represented(r: Request, trail: seq<Visit>, v: Visit) {
    exists i, j :: 0 <= j <= i < |trail| && trail[i] == v && trail[j] in Selected(r, trail) &&
                   trail[j].node.itemId == v.node.itemId && (v.node.itemId.None? ==> trail[j] == v)
  }

  /** Of a walk that covered every level: what is reported are ends of paths that match; every end of a path
      that matches is reported, or an earlier one to the same ItemID; and no ItemID twice. */
  lemma CompleteMeansAll(r: Request, ns: Namespace, d: nat, v: Visit)
    requires Level(ns, RootScope(r), d) == []
    ensures var trail := BreadthFirst(ns, RootScope(r), d);
            && (v in Selected(r, trail) ==> Eligible(r, v.node) && EndsPath(ns, r, v))
            && (EndsPath(ns, r, v) && Eligible(r, v.node) ==> Represented(r, trail, v))
    ensures var reported := Selected(r, BreadthFirst(ns, RootScope(r), d));
            forall i, j :: 0 <= i < j < |reported| && reported[i].node.itemId.Some? ==>
              reported[i].node.itemId != reported[j].node.itemId
  {
    var trail := BreadthFirst(ns, RootScope(r), d);
    var reported := Selected(r, trail);
    SelectedItems(r, trail);
    WalkCoversPaths(ns, RootScope(r), d, v);
    if EndsPath(ns, r, v) && Eligible(r, v.node) {
      var i :| 0 <= i < |trail| && trail[i] == v;
      var j := Representative(r, trail, i);
    }
    forall i, j | 0 <= i < j < |reported| && reported[i].node.itemId.Some?
      ensures reported[i].node.itemId != reported[j].node.itemId
    {
      SelectedOnce(r, trail, i, j);
    }
  }

  // ---------------------------------------------------------------- what the client received

  lemma {:induction false} MatchesSent(sent: seq<Event>)
    ensures forall e :: e in Matches(sent) <==> e in sent && e.Match?
  {
    if sent != [] {
      MatchesSent(sent[..|sent| - 1]);
      assert sent == sent[..|sent| - 1] + [sent[|sent| - 1]];
    }
  }

  lemma MatchOfPath(root: Scope, path: seq<Node>)
    requires path != []
    ensures MatchEvent(VisitAt(root, path)) == Match(Last(path), CrumbsTo(root, path))
  {
    ScopeOfPath(root, path);
  }

  ghost predicate IsComplete(sent: seq<Event>) {
    exists e :: e in sent && e.Completed? && e.complete
  }

  lemma CompleteWalk(r: Request, ns: Namespace, depth: nat, maxResults: nat, trail: seq<Visit>, sent: seq<Event>)
    requires Answers(r, ns, depth, maxResults, trail, sent) && IsComplete(sent)
    ensures Level(ns, RootScope(r), depth) == [] && trail == BreadthFirst(ns, RootScope(r), depth)
    ensures Matches(sent) == MatchEvents(Selected(r, trail))
  {
  }

  /** A match the client received, in a search that ended as complete, is the end of a matching path. */
  lemma ReceivedIsPath(r: Request, ns: Namespace, depth: nat, maxResults: nat, trail: seq<Visit>, sent: seq<Event>, e: Event)
    returns (path: seq<Node>)
    requires Answers(r, ns, depth, maxResults, trail, sent) && IsComplete(sent) && e in sent && e.Match?
    ensures IsPath(ns, r.root, path) && Asked(r, Last(path)) && e == PathEvent(r, path)
  {
    CompleteWalk(r, ns, depth, maxResults, trail, sent);
    MatchesSent(sent);
    EligibleIsAsked(r, e.node);
    var selected := Selected(r, trail);
    var i :| 0 <= i < |selected| && MatchEvent(selected[i]) == e;
    CompleteMeansAll(r, ns, depth, selected[i]);
    path :| IsPath(ns, r.root, path) && selected[i] == VisitAt(RootScope(r), path);
    MatchOfPath(RootScope(r), path);
  }

  /** And every matching path was received, itself or one to the same ItemID that the walk meets no later. */
  lemma PathIsReceived(r: Request, ns: Namespace, depth: nat, maxResults: nat, trail: seq<Visit>, sent: seq<Event>, path: seq<Node>)
    returns (other: seq<Node>)
    requires Answers(r, ns, depth, maxResults, trail, sent) && IsComplete(sent)
    requires IsPath(ns, r.root, path) && Asked(r, Last(path))
    ensures IsPath(ns, r.root, other) && PathEvent(r, other) in sent
    ensures Last(other).itemId == Last(path).itemId
    ensures Last(path).itemId.None? ==> PathEvent(r, path) in sent
    ensures exists i, j :: 0 <= j <= i < |trail| && trail[i] == VisitAt(RootScope(r), path) && trail[j] == VisitAt(RootScope(r), other)
  {
    CompleteWalk(r, ns, depth, maxResults, trail, sent);
    MatchesSent(sent);
    EligibleIsAsked(r, Last(path));
    var selected, v := Selected(r, trail), VisitAt(RootScope(r), path);
    CompleteMeansAll(r, ns, depth, v);
    var i, j :| 0 <= j <= i < |trail| && trail[i] == v && trail[j] in selected &&
                trail[j].node.itemId == v.node.itemId && (v.node.itemId.None? ==> trail[j] == v);
    CompleteMeansAll(r, ns, depth, trail[j]);
    other :| IsPath(ns, r.root, other) && trail[j] == VisitAt(RootScope(r), other);
    var n :| 0 <= n < |selected| && selected[n] == trail[j];
    assert MatchEvents(selected)[n] == MatchEvent(trail[j]);
    MatchOfPath(RootScope(r), other);
    MatchOfPath(RootScope(r), path);
  }

  predicate NamesItem(e: Event) {
    e.Match? && e.node.itemId.Some?
  }

  ghost predicate NoItemTwice(events: seq<Event>) {
    forall i, j :: 0 <= i < j < |events| && NamesItem(events[i]) && NamesItem(events[j]) ==>
      events[i].node.itemId != events[j].node.itemId
  }

  /** A search the client saw end as complete, as far as `sent` goes: nothing follows the summary, the matches
      are the ends of matching paths with the whole path as breadcrumbs, in breadth-first order, no ItemID
      twice, and nothing that matches is missing. */
  lemma CompleteAnswer(r: Request, ns: Namespace, depth: nat, maxResults: nat, trail: seq<Visit>, sent: seq<Event>)
    requires Answers(r, ns, depth, maxResults, trail, sent) && IsComplete(sent)
    ensures sent != [] && sent[|sent| - 1].Completed? && sent[|sent| - 1].complete
    ensures forall e :: e in sent && e.Match? ==>
              exists path :: IsPath(ns, r.root, path) && Asked(r, Last(path)) && e == PathEvent(r, path)
    ensures forall path :: IsPath(ns, r.root, path) && Asked(r, Last(path)) ==>
              PathEvent(r, path) in sent ||
              exists other :: IsPath(ns, r.root, other) && PathEvent(r, other) in sent &&
                              Last(path).itemId.Some? && Last(other).itemId == Last(path).itemId
    ensures Matches(sent) == MatchEvents(Selected(r, BreadthFirst(ns, RootScope(r), depth)))
    ensures NoItemTwice(Matches(sent))
  {
    CompleteWalk(r, ns, depth, maxResults, trail, sent);
    forall e | e in sent && e.Match?
      ensures exists path :: IsPath(ns, r.root, path) && Asked(r, Last(path)) && e == PathEvent(r, path)
    {
      var path := ReceivedIsPath(r, ns, depth, maxResults, trail, sent, e);
    }
    forall path | IsPath(ns, r.root, path) && Asked(r, Last(path))
      ensures PathEvent(r, path) in sent ||
              exists other :: IsPath(ns, r.root, other) && PathEvent(r, other) in sent &&
                              Last(path).itemId.Some? && Last(other).itemId == Last(path).itemId
    {
      var other := PathIsReceived(r, ns, depth, maxResults, trail, sent, path);
    }
    forall i, j | 0 <= i < j < |Matches(sent)| && NamesItem(Matches(sent)[i]) && NamesItem(Matches(sent)[j])
      ensures Matches(sent)[i].node.itemId != Matches(sent)[j].node.itemId
    {
      SelectedOnce(r, trail, i, j);
    }
  }

  // ---------------------------------------------------------------- exactly when a search ends as complete

  lemma {:induction false} NothingBelow(ns: Namespace, root: Scope, d: nat, e: nat)
    requires Level(ns, root, d) == [] && d <= e
    ensures Level(ns, root, e) == [] && BreadthFirst(ns, root, e) == BreadthFirst(ns, root, d)
  {
    if d < e {
      NothingBelow(ns, root, d, e - 1);
    }
  }

  lemma {:induction false} WalkGrows(ns: Namespace, root: Scope, d: nat, e: nat)
    requires d <= e
    ensures BreadthFirst(ns, root, d) <= BreadthFirst(ns, root, e)
  {
    if d < e {
      WalkGrows(ns, root, d, e - 1);
    }
  }

  /** No walk is longer, or reports more, than one that has been through every level. */
  lemma WithinWalk(r: Request, ns: Namespace, trail: seq<Visit>, depth: nat, d: nat)
    requires trail <= BreadthFirst(ns, RootScope(r), depth) && Level(ns, RootScope(r), d) == []
    ensures |trail| <= |BreadthFirst(ns, RootScope(r), d)|
    ensures |Selected(r, trail)| <= |Selected(r, BreadthFirst(ns, RootScope(r), d))|
  {
    if depth <= d {
      WalkGrows(ns, RootScope(r), depth, d);
    } else {
      NothingBelow(ns, RootScope(r), d, depth);
    }
    FewerSelected(r, trail, BreadthFirst(ns, RootScope(r), d));
  }

  lemma FewerSelected(r: Request, trail: seq<Visit>, all: seq<Visit>)
    requires trail <= all
    ensures |Selected(r, trail)| <= |Selected(r, all)|
  {
    assert trail == all[..|trail|];
    SelectedPrefix(r, all, |trail|);
  }

  /** For a client that stays, a search ends as complete exactly when the namespace below its root ends, has
      fewer nodes and fewer matches than the limits, and no listing of it fails. */
  lemma CompleteExactly(r: Request, ns: Namespace, depth: nat, maxResults: nat, trail: seq<Visit>, sent: seq<Event>)
    requires Answers(r, ns, depth, maxResults, trail, sent) && Ending(r, ns, depth, maxResults, trail, sent)
    ensures IsComplete(sent) <==> exists d :: Coverable(r, ns, maxResults, d)
  {
    if CoveredAll(r, ns, depth, maxResults, trail, sent) {
      assert sent[|sent| - 1] in sent;
    } else {
      forall d ensures !Coverable(r, ns, maxResults, d) {
        NotCoverable(r, ns, depth, maxResults, trail, sent, d);
      }
      assert forall e :: e in sent && IsTerminal(e) ==> e == sent[|sent| - 1];
    }
  }

  lemma NotCoverable(
    r: Request, ns: Namespace, depth: nat, maxResults: nat, trail: seq<Visit>, sent: seq<Event>, d: nat)
    requires Answers(r, ns, depth, maxResults, trail, sent) && Ending(r, ns, depth, maxResults, trail, sent)
    requires !CoveredAll(r, ns, depth, maxResults, trail, sent)
    ensures !Coverable(r, ns, maxResults, d)
  {
    if Coverable(r, ns, maxResults, d) {
      WithinWalk(r, ns, trail, depth, d);
      var e: nat :| !NoneBrokenIn(ns, Level(ns, RootScope(r), e));
      if e >= d {
        NothingBelow(ns, RootScope(r), d, e);
      }
    }
  }
}
