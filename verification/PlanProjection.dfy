/**
  The declarative side of selective reading: what a selector keeps of a value,
  what keeping it costs, and which documents are within the structural bounds
  whatever is kept.
*/
module PlanProjection {
  import opened Wrappers
  import opened Utf8
  import opened JsonSyntax
  import opened PlanParsing

  /** The part of a value that a selector keeps. */
  function Project(v: Json, s: Selector): Json
    decreases v, 1
  {
    if s == Skip then Null
    else
      match v
      case Array(items) => Array(ProjectItems(items, ItemSelector(s)))
      case Object(fields) => Object(ProjectFields(fields, s))
      case _ => v
  }

  function ProjectItems(items: seq<Json>, sub: Selector): seq<Json>
    decreases items, 0
  {
    if items == [] then []
    else (if sub == Skip then [] else [Project(items[0], sub)]) + ProjectItems(items[1..], sub)
  }

  function ProjectFields(fields: seq<Field>, s: Selector): seq<Field>
    decreases fields, 0
  {
    if fields == [] then []
    else
      var sub := KeySelector(s, fields[0].key);
      (if sub == Skip then [] else [Field(fields[0].key, Project(fields[0].value, sub))]) + ProjectFields(fields[1..], s)
  }

  /** What a reading takes from the retention bounds: the characters it keeps,
      the nodes it keeps, and whether every kept string is short enough. */
  datatype Demand = Demand(retained: nat, nodes: nat, short: bool) {
    function Plus(d: Demand): Demand {
      Demand(retained + d.retained, nodes + d.nodes, short && d.short)
    }
  }

  const FREE := Demand(0, 0, true)

  function StringDemand(ps: seq<Piece>): Demand {
    Demand(|Source(ps)|, 0, RunLength(ps) <= MAX_STRING)
  }

  /** Keys are always kept; other strings and all nodes only under a selector. */
  function Needs(d: Doc, s: Selector): Demand {
    Demand(0, if s == Skip then 0 else 1, true).Plus(CoreNeeds(d.core, s))
  }

  function CoreNeeds(c: Core, s: Selector): Demand {
    match c
    case Quoted(body) => if s == Skip then FREE else StringDemand(body)
    case NonEmptyArray(items) => ItemsNeed(items, ItemSelector(s))
    case NonEmptyObject(members) => MembersNeed(members, s)
    case _ => FREE
  }

  function ItemsNeed(items: Items, sub: Selector): Demand {
    match items
    case LastItem(item, _) => Needs(item, sub)
    case MoreItems(item, _, tail) => Needs(item, sub).Plus(ItemsNeed(tail, sub))
  }

  function MemberNeeds(m: Member, s: Selector): Demand {
    StringDemand(m.key).Plus(Needs(m.value, KeySelector(s, Meaning(m.key))))
  }

  function MembersNeed(members: Members, s: Selector): Demand {
    match members
    case LastMember(m, _) => MemberNeeds(m, s)
    case MoreMembers(m, _, tail) => MemberNeeds(m, s).Plus(MembersNeed(tail, s))
  }

  // ----- structure, which no selector changes

  function ItemCount(items: Items): nat {
    if items.LastItem? then 1 else 1 + ItemCount(items.tail)
  }

  function MemberKeys(members: Members): seq<Units> {
    [Meaning(members.m.key)] + (if members.LastMember? then [] else MemberKeys(members.tail))
  }

  predicate Distinct(keys: seq<Units>) {
    forall i, j | 0 <= i < j < |keys| :: keys[i] != keys[j]
  }

  /** Depth, sizes, numbers and keys are within bounds, at this depth and below. */
  predicate Structured(d: Doc, depth: nat) {
    depth <= MAX_DEPTH && CoreStructured(d.core, depth)
  }

  predicate CoreStructured(c: Core, depth: nat) {
    match c
    case Word(token) => ScalarError(token) == None
    case NonEmptyArray(items) => ItemCount(items) <= MAX_ITEMS && ItemsStructured(items, depth)
    case NonEmptyObject(members) =>
      && |MemberKeys(members)| <= MAX_KEYS
      && Distinct(MemberKeys(members))
      && MembersStructured(members, depth)
    case _ => true
  }

  predicate ItemsStructured(items: Items, depth: nat) {
    Structured(items.item, depth + 1) && (items.MoreItems? ==> ItemsStructured(items.tail, depth))
  }

  predicate MembersStructured(members: Members, depth: nat) {
    Structured(members.m.value, depth + 1) && (members.MoreMembers? ==> MembersStructured(members.tail, depth))
  }

  /** A demand on top of a tally stays within the retention bounds. */
  predicate Affordable(tally: Tally, need: Demand, limit: nat) {
    need.short && tally.retained + need.retained <= limit && tally.nodes + need.nodes <= MAX_NODES
  }

  function Charge(tally: Tally, need: Demand): Tally {
    Tally(tally.retained + need.retained, tally.nodes + need.nodes)
  }
}
