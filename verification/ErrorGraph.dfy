/** Collecting the details of a thrown value and everything it links to (stashdb.adapter.ts). */
module ErrorGraph {
  import opened Basics
  import opened Text

  /** A thrown value: falsy, a string, an object by identity, or anything else compared by value. */
  datatype Value = Nothing | Text(text: string) | Object(id: nat) | Other(number: int)

  /** The objects: errors, aggregate errors and plain objects; `errors` is empty where it is no array. */
  datatype Node =
    | Error(code: Option<string>, message: string, cause: Value)
    | Aggregate(code: Option<string>, message: string, errors: seq<Value>, cause: Value)
    | Plain(code: Option<string>, text: Option<string>, errors: seq<Value>, cause: Value)

  type Graph = map<nat, Node>

  predicate Falsy(v: Value) {
    v.Nothing? || v == Text("")
  }

  function Links(node: Node): seq<Value> {
    if node.Error? then [node.cause] else node.errors + [node.cause]
  }

  function LinksOf(g: Graph, v: Value): seq<Value> {
    if v.Object? && v.id in g then Links(g[v.id]) else []
  }

  function NonBlankText(s: string): Option<string> {
    if Trim(s) == "" then None else Some(Trim(s))
  }

  function TrimmedPart(part: Option<string>): Option<string> {
    if part.None? then None else NonBlankText(part.value)
  }

  /** The code and the message as far as they say something, with a space between. */
  function Joined(code: Option<string>, message: Option<string>): Option<string> {
    match (code, message)
    case (None, None) => None
    case (Some(c), None) => Some(c)
    case (None, Some(m)) => Some(m)
    case (Some(c), Some(m)) => Some(c + " " + m)
  }

  function NodeDetail(node: Node): Option<string> {
    Joined(TrimmedPart(node.code), if node.Plain? then TrimmedPart(node.text) else NonBlankText(node.message))
  }

  /** An object's detail is its trimmed code and message with a space between, or the one that is not blank, or none. */
  lemma DetailInWords(node: Node)
    ensures var code := if node.code.Some? then Trim(node.code.value) else "";
            var message := if !node.Plain? then Trim(node.message) else if node.text.Some? then Trim(node.text.value) else "";
            NodeDetail(node)
            == if code != "" && message != "" then Some(code + " " + message)
               else if code != "" then Some(code)
               else if message != "" then Some(message)
               else None
  {
  }

  /** What a value contributes itself. */
  function Detail(g: Graph, v: Value): Option<string> {
    match v
    case Text(text) => NonBlankText(text)
    case Object(id) => if id in g then NodeDetail(g[id]) else None
    case _ => None
  }

  ghost predicate ReachedIn(g: Graph, from: Value, v: Value, steps: nat)
    decreases steps
  {
    && !Falsy(from)
    && if steps == 0 then from == v else exists link :: link in LinksOf(g, from) && ReachedIn(g, link, v, steps - 1)
  }

  ghost predicate Reachable(g: Graph, from: Value, v: Value) {
    exists steps: nat :: ReachedIn(g, from, v, steps)
  }

  ghost predicate ReachableFromAny(g: Graph, roots: seq<Value>, v: Value) {
    exists root :: root in roots && Reachable(g, root, v)
  }

  lemma ReachedThrough(g: Graph, from: Value, v: Value)
    requires !Falsy(from) && ReachableFromAny(g, LinksOf(g, from), v)
    ensures Reachable(g, from, v)
  {
    var link :| link in LinksOf(g, from) && Reachable(g, link, v);
    var steps: nat :| ReachedIn(g, link, v, steps);
    var more := steps + 1;
    assert ReachedIn(g, link, v, more - 1);
    assert ReachedIn(g, from, v, more);
  }

  lemma ReachesItself(g: Graph, v: Value)
    requires !Falsy(v)
    ensures ReachableFromAny(g, [v], v)
  {
    assert ReachedIn(g, v, v, 0);
    assert Reachable(g, v, v);
  }

  /** Every object linked to is one of the graph's. */
  ghost predicate Closed(g: Graph) {
    forall id, link :: id in g && link in Links(g[id]) && link.Object? ==> link.id in g
  }

  /** All the values a walk from `root` can meet. */
  ghost function Universe(g: Graph, root: Value): set<Value> {
    {root} + (set id, link | id in g && link in Links(g[id]) :: link)
  }

  ghost predicate LinksIn(g: Graph, v: Value, seen: set<Value>) {
    forall link :: link in LinksOf(g, v) ==> Falsy(link) || link in seen
  }

  /** What a walk adds to the values seen: those its roots reach, each with all its links. */
  ghost predicate Grew(g: Graph, roots: seq<Value>, before: set<Value>, after: set<Value>) {
    && before <= after
    && (forall root :: root in roots ==> Falsy(root) || root in after)
    && (forall v :: v in after && v !in before ==> !Falsy(v) && ReachableFromAny(g, roots, v) && LinksIn(g, v, after))
  }

  lemma ReachableFromMore(g: Graph, some: seq<Value>, all: seq<Value>, v: Value)
    requires ReachableFromAny(g, some, v) && forall root :: root in some ==> root in all
    ensures ReachableFromAny(g, all, v)
  {
  }

  lemma GrewTwice(g: Graph, first: seq<Value>, second: seq<Value>, s: set<Value>, t: set<Value>, u: set<Value>)
    requires Grew(g, first, s, t) && Grew(g, second, t, u)
    ensures Grew(g, first + second, s, u)
  {
    forall v | v in u && v !in s ensures !Falsy(v) && ReachableFromAny(g, first + second, v) && LinksIn(g, v, u) {
      if v in t {
        ReachableFromMore(g, first, first + second, v);
      } else {
        ReachableFromMore(g, second, first + second, v);
      }
    }
  }

  /** Entering a value and then walking its links is walking the value. */
  lemma GrewThrough(g: Graph, v: Value, s: set<Value>, u: set<Value>)
    requires !Falsy(v) && Grew(g, LinksOf(g, v), s + {v}, u)
    ensures Grew(g, [v], s, u)
  {
    forall w | w in u && w !in s ensures !Falsy(w) && ReachableFromAny(g, [v], w) && LinksIn(g, w, u) {
      if w == v {
        ReachesItself(g, v);
      } else {
        ReachedThrough(g, v, w);
      }
    }
  }

  ghost predicate Said(g: Graph, details: seq<string>, spoken: set<Value>) {
    && NoDuplicates(details)
    && (forall d :: d in details ==> exists v :: v in spoken && Detail(g, v) == Some(d))
    && (forall v :: v in spoken && Detail(g, v).Some? ==> Detail(g, v).value in details)
  }

  lemma SaidOneMore(g: Graph, details: seq<string>, spoken: set<Value>, v: Value)
    requires Said(g, details, spoken)
    ensures var detail := Detail(g, v);
            Said(g, if detail.Some? && detail.value !in details then details + [detail.value] else details, spoken + {v})
  {
  }

  lemma PrefixSnoc(vs: seq<Value>, n: nat)
    requires n < |vs|
    ensures vs[..n + 1] == vs[..n] + [vs[n]]
  {
  }

  /** The values seen and the details said so far. */
  datatype Trail = Trail(seen: set<Value>, details: seq<string>) {
    function Say(detail: Option<string>): Trail {
      this.(details := AddOnce(details, detail))
    }
  }

  ghost predicate Contained(g: Graph, universe: set<Value>) {
    && (forall v :: v in universe && v.Object? ==> v.id in g)
    && (forall v, link :: v in universe && link in LinksOf(g, v) ==> link in universe)
  }

  /** The order of the walk: depth first, an aggregate's own detail after its errors and before its cause, any other
      object's before its links. */
  ghost function Walked(g: Graph, universe: set<Value>, v: Value, t: Trail): (r: Trail)
    requires Contained(g, universe) && v in universe && t.seen <= universe
    ensures t.seen <= r.seen <= universe
    decreases universe - t.seen, 0
  {
    if Falsy(v) || v in t.seen then t
    else if v.Object? then WalkedObject(g, universe, v.id, t.(seen := t.seen + {v}))
    else t.(seen := t.seen + {v}).Say(Detail(g, v))
  }

  ghost function WalkedObject(g: Graph, universe: set<Value>, id: nat, t: Trail): (r: Trail)
    requires Contained(g, universe) && id in g && Object(id) in t.seen && t.seen <= universe
    ensures t.seen <= r.seen <= universe
    decreases universe - t.seen, 2
  {
    var node, detail := g[id], NodeDetail(g[id]);
    assert forall link :: link in LinksOf(g, Object(id)) ==> link in universe;
    match node
    case Error(_, _, cause) => Walked(g, universe, cause, t.Say(detail))
    case Plain(_, _, errors, cause) => Walked(g, universe, cause, WalkedEach(g, universe, errors, t.Say(detail)))
    case Aggregate(_, _, errors, cause) => Walked(g, universe, cause, WalkedEach(g, universe, errors, t).Say(detail))
  }

  ghost function WalkedEach(g: Graph, universe: set<Value>, vs: seq<Value>, t: Trail): (r: Trail)
    requires Contained(g, universe) && (forall v :: v in vs ==> v in universe) && t.seen <= universe
    ensures t.seen <= r.seen <= universe
    decreases universe - t.seen, 1, |vs|
  {
    if vs == [] then t else Walked(g, universe, vs[|vs| - 1], WalkedEach(g, universe, vs[..|vs| - 1], t))
  }

  lemma UniverseContained(g: Graph, root: Value)
    requires Closed(g) && (root.Object? ==> root.id in g)
    ensures Contained(g, Universe(g, root)) && root in Universe(g, root)
  {
  }

  /** The details in the order of the walk. */
  ghost function DetailsInOrder(g: Graph, root: Value): seq<string>
    requires Closed(g) && (root.Object? ==> root.id in g)
  {
    UniverseContained(g, root);
    Walked(g, Universe(g, root), root, Trail({}, [])).details
  }

  /** An object with one text among its errors and no cause. */
  predicate HasOneError(g: Graph, id: nat, error: string) {
    && id in g && !g[id].Error? && g[id].errors == [Text(error)] && g[id].cause == Nothing
    && Trim(error) != ""
  }

  /** An aggregate's own detail comes after its errors', any other object's before them. */
  lemma ErrorsAndOwnDetail(g: Graph, id: nat, error: string)
    requires Closed(g) && HasOneError(g, id, error)
    requires NodeDetail(g[id]).Some? && NodeDetail(g[id]).value != Trim(error)
    ensures DetailsInOrder(g, Object(id))
            == if g[id].Aggregate? then [Trim(error), NodeDetail(g[id]).value] else [NodeDetail(g[id]).value, Trim(error)]
  {
    var root, universe := Object(id), Universe(g, Object(id));
    UniverseContained(g, root);
    var t := Trail({}, []);
    ObjectEntered(g, universe, id, t);
    ObjectWalked(g, universe, id, error, t.(seen := t.seen + {root}));
  }

  lemma ObjectEntered(g: Graph, universe: set<Value>, id: nat, t: Trail)
    requires Contained(g, universe) && id in g && Object(id) in universe && t.seen <= universe && Object(id) !in t.seen
    ensures Walked(g, universe, Object(id), t) == WalkedObject(g, universe, id, t.(seen := t.seen + {Object(id)}))
  {
  }

  lemma ObjectWalked(g: Graph, universe: set<Value>, id: nat, error: string, start: Trail)
    requires Contained(g, universe) && Object(id) in universe && start.seen <= universe
    requires Object(id) in start.seen && Text(error) !in start.seen && start.details == []
    requires HasOneError(g, id, error) && NodeDetail(g[id]).Some? && NodeDetail(g[id]).value != Trim(error)
    ensures WalkedObject(g, universe, id, start).details
            == if g[id].Aggregate? then [Trim(error), NodeDetail(g[id]).value] else [NodeDetail(g[id]).value, Trim(error)]
  {
    var own := NodeDetail(g[id]);
    assert forall link :: link in LinksOf(g, Object(id)) ==> link in universe;
    assert Text(error) in LinksOf(g, Object(id));
    var first := if g[id].Aggregate? then start else start.Say(own);
    OneWalked(g, universe, Text(error), first);
    TextWalked(g, universe, error, first);
    var each := WalkedEach(g, universe, g[id].errors, first);
    NothingWalked(g, universe, if g[id].Aggregate? then each.Say(own) else each);
  }

  lemma NothingWalked(g: Graph, universe: set<Value>, t: Trail)
    requires Contained(g, universe) && Nothing in universe && t.seen <= universe
    ensures Walked(g, universe, Nothing, t) == t
  {
  }

  lemma TextWalked(g: Graph, universe: set<Value>, text: string, t: Trail)
    requires Contained(g, universe) && Text(text) in universe && t.seen <= universe
    requires Trim(text) != "" && Text(text) !in t.seen
    ensures Walked(g, universe, Text(text), t) == t.(seen := t.seen + {Text(text)}).Say(Some(Trim(text)))
  {
  }

  lemma OneWalked(g: Graph, universe: set<Value>, v: Value, t: Trail)
    requires Contained(g, universe) && v in universe && t.seen <= universe
    ensures WalkedEach(g, universe, [v], t) == Walked(g, universe, v, t)
  {
    assert [v][..0] == [];
    assert WalkedEach(g, universe, [], t) == t;
  }

  class Walk {
    const graph: Graph
    ghost const universe: set<Value>
    var details: seq<string>
    var seen: set<Value>
    /** The values entered, in order, and those whose own detail has been added. */
    ghost var visits: seq<Value>
    ghost var spoken: set<Value>

    ghost predicate Valid()
      reads this
    {
      && Lists(visits, seen) && spoken <= seen <= universe
      && Said(graph, details, spoken)
      && Contained(graph, universe)
    }

    ghost function Here(): Trail
      reads this
    {
      Trail(seen, details)
    }

    constructor (graph: Graph, ghost root: Value)
      requires Closed(graph) && (root.Object? ==> root.id in graph)
      ensures Valid() && this.graph == graph && universe == Universe(graph, root) && Here() == Trail({}, []) && spoken == {}
    {
      this.graph, universe := graph, Universe(graph, root);
      details, seen, visits, spoken := [], {}, [], {};
    }

    method AddUniqueDetail(detail: Option<string>, ghost v: Value)
      requires Valid() && v in seen && detail == Detail(graph, v)
      modifies this`details, this`spoken
      ensures Valid() && spoken == old(spoken) + {v}
      ensures details == AddOnce(old(details), detail)
    {
      SaidOneMore(graph, details, spoken, v);
      if detail.Some? && detail.value !in details {
        details := details + [detail.value];
      }
      spoken := spoken + {v};
    }

    method CollectEach(errors: seq<Value>)
      requires Valid() && forall error :: error in errors ==> error in universe
      modifies this
      ensures Valid() && Grew(graph, errors, old(seen), seen) && spoken == old(spoken) + (seen - old(seen))
      ensures Here() == WalkedEach(graph, universe, errors, old(Here()))
      decreases universe - seen, 1
    {
      for n := 0 to |errors|
        invariant Valid() && Grew(graph, errors[..n], old(seen), seen) && spoken == old(spoken) + (seen - old(seen))
        invariant Here() == WalkedEach(graph, universe, errors[..n], old(Here()))
      {
        ghost var before := seen;
        CollectNetworkErrorDetails(errors[n]);
        GrewTwice(graph, errors[..n], [errors[n]], old(seen), before, seen);
        PrefixSnoc(errors, n);
      }
      assert errors[..|errors|] == errors;
    }

    /** An error's own detail, then its cause's. */
    method CollectError(id: nat)
      requires Valid() && id in graph && graph[id].Error? && Object(id) in seen
      modifies this
      ensures Valid() && Grew(graph, LinksOf(graph, Object(id)), old(seen), seen)
      ensures spoken == old(spoken) + {Object(id)} + (seen - old(seen))
      ensures Here() == WalkedObject(graph, universe, id, old(Here()))
      decreases universe - seen, 1
    {
      var node := graph[id];
      assert forall link :: link in LinksOf(graph, Object(id)) ==> link in universe;
      AddUniqueDetail(NodeDetail(node), Object(id));
      CollectNetworkErrorDetails(node.cause);
    }

    /** An aggregate's errors come before its own detail. */
    method CollectAggregate(id: nat)
      requires Valid() && id in graph && graph[id].Aggregate? && Object(id) in seen
      modifies this
      ensures Valid() && Grew(graph, LinksOf(graph, Object(id)), old(seen), seen)
      ensures spoken == old(spoken) + {Object(id)} + (seen - old(seen))
      ensures Here() == WalkedObject(graph, universe, id, old(Here()))
      decreases universe - seen, 2
    {
      var node := graph[id];
      assert forall link :: link in LinksOf(graph, Object(id)) ==> link in universe;
      CollectEach(node.errors);
      AddUniqueDetail(NodeDetail(node), Object(id));
      ghost var between := seen;
      CollectNetworkErrorDetails(node.cause);
      GrewTwice(graph, node.errors, [node.cause], old(seen), between, seen);
    }

    /** Any other object's own detail comes first. */
    method CollectPlain(id: nat)
      requires Valid() && id in graph && graph[id].Plain? && Object(id) in seen
      modifies this
      ensures Valid() && Grew(graph, LinksOf(graph, Object(id)), old(seen), seen)
      ensures spoken == old(spoken) + {Object(id)} + (seen - old(seen))
      ensures Here() == WalkedObject(graph, universe, id, old(Here()))
      decreases universe - seen, 2
    {
      var node := graph[id];
      assert forall link :: link in LinksOf(graph, Object(id)) ==> link in universe;
      AddUniqueDetail(NodeDetail(node), Object(id));
      CollectEach(node.errors);
      ghost var between := seen;
      CollectNetworkErrorDetails(node.cause);
      GrewTwice(graph, node.errors, [node.cause], old(seen), between, seen);
    }

    method CollectNetworkErrorDetails(error: Value)
      requires Valid() && error in universe
      modifies this
      ensures Valid() && Grew(graph, [error], old(seen), seen) && spoken == old(spoken) + (seen - old(seen))
      ensures Here() == Walked(graph, universe, error, old(Here()))
      decreases universe - seen, 0
    {
      if Falsy(error) || error in seen {
        return;
      }
      ListsSnoc(visits, seen, error);
      seen, visits := seen + {error}, visits + [error];
      match error {
        case Text(text) => AddUniqueDetail(NonBlankText(text), error);
        case Other(_) => AddUniqueDetail(None, error);
        case Object(id) =>
          match graph[id] {
            case Error(_, _, _) => CollectError(id);
            case Aggregate(_, _, _, _) => CollectAggregate(id);
            case Plain(_, _, _, _) => CollectPlain(id);
          }
      }
      GrewThrough(graph, error, old(seen), seen);
    }
  }

  ghost predicate ClosedUnderLinks(g: Graph, seen: set<Value>) {
    forall v :: v in seen ==> LinksIn(g, v, seen)
  }

  lemma LinkIsSeen(g: Graph, seen: set<Value>, from: Value, link: Value)
    requires ClosedUnderLinks(g, seen) && from in seen && link in LinksOf(g, from) && !Falsy(link)
    ensures link in seen
  {
    assert LinksIn(g, from, seen);
  }

  lemma FirstLink(g: Graph, from: Value, v: Value, steps: nat) returns (link: Value)
    requires ReachedIn(g, from, v, steps) && steps > 0
    ensures link in LinksOf(g, from) && !Falsy(link) && ReachedIn(g, link, v, steps - 1)
  {
    link :| link in LinksOf(g, from) && ReachedIn(g, link, v, steps - 1);
  }

  lemma {:induction false} ReachedIsSeen(g: Graph, seen: set<Value>, from: Value, v: Value, steps: nat)
    requires ReachedIn(g, from, v, steps) && from in seen && ClosedUnderLinks(g, seen)
    ensures v in seen
    decreases steps
  {
    if steps > 0 {
      var link := FirstLink(g, from, v, steps);
      LinkIsSeen(g, seen, from, link);
      ReachedIsSeen(g, seen, link, v, steps - 1);
    }
  }

  function JoinedDetails(details: seq<string>): string {
    if details == [] then "" else if |details| == 1 then details[0] else details[0] + "; " + JoinedDetails(details[1..])
  }

  /** Each further detail comes after a semicolon and a space. */
  lemma {:induction false} JoinedInWords(details: seq<string>, last: string)
    ensures JoinedDetails(details + [last]) == if details == [] then last else JoinedDetails(details) + "; " + last
  {
    if |details| > 0 {
      assert (details + [last])[1..] == details[1..] + [last];
      JoinedInWords(details[1..], last);
    }
  }

  /** Over any graph, cyclic or not, the walk ends having entered each reachable value once, and its details are
      the distinct details of those values, in the order of the walk. The message joins them; there is none when no
      reachable value has a detail. */
  method NetworkErrorDetails(graph: Graph, error: Value)
    returns (message: Option<string>, ghost visits: seq<Value>)
    requires Closed(graph) && (error.Object? ==> error.id in graph)
    ensures NoDuplicates(visits) && forall v :: v in visits <==> Reachable(graph, error, v)
    ensures NoDuplicates(DetailsInOrder(graph, error))
    ensures forall d :: d in DetailsInOrder(graph, error) <==> exists v :: Reachable(graph, error, v) && Detail(graph, v) == Some(d)
    ensures message.None? <==> DetailsInOrder(graph, error) == []
    ensures message.Some? ==> message.value == JoinedDetails(DetailsInOrder(graph, error))
  {
    var walk := new Walk(graph, error);
    walk.CollectNetworkErrorDetails(error);
    visits := walk.visits;
    message := if walk.details != [] then Some(JoinedDetails(walk.details)) else None;
    forall v ensures v in walk.seen <==> Reachable(graph, error, v) {
      if Reachable(graph, error, v) {
        var steps: nat :| ReachedIn(graph, error, v, steps);
        ReachedIsSeen(graph, walk.seen, error, v, steps);
      }
      if v in walk.seen {
        var root :| root in [error] && Reachable(graph, root, v);
      }
    }
  }
}
