/** The vocabulary of the analysis: index keys, index specifications and observed
    query shapes (apps/api/src/engine/types.ts). */
module Engine {

  datatype Option<+T> = None | Some(value: T)

  /** `Asc` and `Desc` describe an order and have a reverse; the rest order nothing. */
  datatype Direction = Asc | Desc | TwoD | TwoDSphere | Text | Hashed

  predicate Ordered(d: Direction) {
    d.Asc? || d.Desc?
  }

  /** The direction a backward walk presents. */
  function Flip(d: Direction): Direction {
    match d
    case Asc => Desc
    case Desc => Asc
    case other => other
  }

  datatype Key = Key(field: string, direction: Direction)

  type SortKey = k: Key | Ordered(k.direction) witness Key("", Asc)

  function Fields(keys: seq<Key>): seq<string> {
    seq(|keys|, i requires 0 <= i < |keys| => keys[i].field)
  }

  predicate AllOrdered(keys: seq<Key>) {
    forall i :: 0 <= i < |keys| ==> Ordered(keys[i].direction)
  }

  predicate Distinct<T(==)>(s: seq<T>) {
    forall i, j :: 0 <= i < j < |s| ==> s[i] != s[j]
  }

  /** A literal an equality predicate compared against, and a filter made of them. */
  datatype Constant = Str(s: string) | Num(n: real) | Flag(b: bool) | Json(text: string)
  type Filter = map<string, Constant>

  /** An absent `include` list reads as the empty one. */
  datatype IndexSpec = IndexSpec(
    name: string,
    keys: seq<Key>,
    unique: bool,
    ttl: bool,
    partial: bool,
    partialFilter: Option<Filter>,
    sparse: bool,
    hidden: bool,
    isShardKey: bool,
    collation: Option<string>,
    includes: seq<string>)

  /** What analysis/client.ts reads off a client's application and driver names. */
  datatype ClientKind = Interactive | Application | Unknown

  datatype QueryShape = QueryShape(
    equality: seq<string>,
    sort: seq<SortKey>,
    range: seq<string>,
    collscan: bool,
    sortedInMemory: bool,
    count: nat,
    observedForHours: Option<real>,
    clients: seq<ClientKind>,
    constants: Filter)

  /** Key directions whose index is the only way its own queries run at all. */
  predicate HideBreaksQueries(index: IndexSpec) {
    exists i :: 0 <= i < |index.keys| &&
      (index.keys[i].direction.Text? || index.keys[i].direction.TwoDSphere? || index.keys[i].direction.TwoD?)
  }

  predicate IsNeverDrop(index: IndexSpec) {
    index.name == "_id_" || index.unique || index.ttl || index.isShardKey || HideBreaksQueries(index)
  }

  /** Where the parentheses stand does not matter. */
  lemma {:induction false} Assoc<T>(a: seq<T>, b: seq<T>, c: seq<T>)
    ensures a + (b + c) == a + b + c
  {
  }

  lemma {:induction false} Assoc4<T>(a: seq<T>, b: seq<T>, c: seq<T>, d: seq<T>)
    ensures a + (b + c + d) == a + b + c + d
  {
  }
}
