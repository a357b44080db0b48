/** The rules every taxonomy list shares: ids assigned as the largest id plus one,
    names compared ignoring case, and the id-to-name maps used for display.
    A list is seen through its (id, name) entries. */
module Entries {
  import opened Wrappers
  import opened Records
  import opened Text

  type Entry = (int, string)

  function CategoryEntries(cs: seq<Category>): (r: seq<Entry>)
    ensures |r| == |cs| && forall i :: 0 <= i < |cs| ==> r[i] == (cs[i].id, cs[i].name)
  {
    seq(|cs|, i requires 0 <= i < |cs| => (cs[i].id, cs[i].name))
  }

  function TopicEntries(ts: seq<Topic>): (r: seq<Entry>)
    ensures |r| == |ts| && forall i :: 0 <= i < |ts| ==> r[i] == (ts[i].id, ts[i].name)
  {
    seq(|ts|, i requires 0 <= i < |ts| => (ts[i].id, ts[i].name))
  }

  function GroupEntries(gs: seq<Group>): (r: seq<Entry>)
    ensures |r| == |gs| && forall i :: 0 <= i < |gs| ==> r[i] == (gs[i].id, gs[i].name)
  {
    seq(|gs|, i requires 0 <= i < |gs| => (gs[i].id, gs[i].name))
  }

  /** `max([e.id for e in es], default=0)` */
  function MaxId(es: seq<Entry>): (m: int)
    ensures es == [] ==> m == 0
    ensures forall i :: 0 <= i < |es| ==> es[i].0 <= m
    ensures es != [] ==> exists i :: 0 <= i < |es| && es[i].0 == m
  {
    if es == [] then 0
    else if |es| == 1 then es[0].0
    else
      var rest := MaxId(es[1..]);
      if es[0].0 >= rest then es[0].0 else rest
  }

  /** The id a new entry of the list receives: one more than the largest id, 1 for an empty list. */
  function NextId(es: seq<Entry>): (n: int)
    ensures es == [] ==> n == 1
    ensures forall i :: 0 <= i < |es| ==> es[i].0 < n
    ensures (forall i :: 0 <= i < |es| ==> es[i].0 >= 0) ==> n >= 1
  {
    MaxId(es) + 1
  }

  /** `any(e.name.lower() == name.lower() for e in es)`: the name is used, ignoring case. */
  predicate NameTaken(es: seq<Entry>, name: string) {
    exists i :: 0 <= i < |es| && Lower(es[i].1) == Lower(name)
  }

  predicate UniqueIds(es: seq<Entry>) {
    forall i, j :: 0 <= i < j < |es| ==> es[i].0 != es[j].0
  }

  /** No two names of the list are equal ignoring case. */
  predicate UniqueNames(es: seq<Entry>) {
    forall i, j :: 0 <= i < j < |es| ==> Lower(es[i].1) != Lower(es[j].1)
  }

  /** Appending an entry with the next id keeps the ids unique, and appending a name
      the list does not already use (ignoring case) keeps the names unique. */
  lemma AppendNextKeepsUnique(es: seq<Entry>, name: string)
    ensures UniqueIds(es) ==> UniqueIds(es + [(NextId(es), name)])
    ensures UniqueNames(es) && !NameTaken(es, name) ==> UniqueNames(es + [(NextId(es), name)])
  {
    var es' := es + [(NextId(es), name)];
    if UniqueNames(es) && !NameTaken(es, name) {
      forall i, j | 0 <= i < j < |es'| ensures Lower(es'[i].1) != Lower(es'[j].1) {
        if j == |es| {
          assert es'[i] == es[i];
        }
      }
    }
  }

  /** `{e.id: e.name for e in es}`: a later entry with the same id overrides an earlier one. */
  function NameMap(es: seq<Entry>): (m: map<int, string>)
    ensures forall k :: k in m <==> exists i :: 0 <= i < |es| && es[i].0 == k
  {
    if es == [] then map[]
    else
      var init := es[..|es| - 1];
      assert forall i :: 0 <= i < |es| - 1 ==> init[i] == es[i];
      NameMap(init)[es[|es| - 1].0 := es[|es| - 1].1]
  }

  /** The map holds, for each id, the name of the last entry with that id. */
  lemma {:induction false} NameMapLatest(es: seq<Entry>, i: nat)
    requires i < |es| && forall j :: i < j < |es| ==> es[j].0 != es[i].0
    ensures es[i].0 in NameMap(es) && NameMap(es)[es[i].0] == es[i].1
  {
    if i < |es| - 1 {
      var init := es[..|es| - 1];
      assert init[i] == es[i];
      forall j | i < j < |init| ensures init[j].0 != init[i].0 {
        assert init[j] == es[j];
      }
      NameMapLatest(init, i);
    }
  }

  /** `m.get(ref, default)` */
  function NameOr(m: map<int, string>, ref: Ref, default: string): string {
    if ref.Some? && ref.value in m then m[ref.value] else default
  }

  /** Looking a reference up in a list's name map gives the name of the entry with that
      id when ids are unique, and the default when no entry has it or it is null. */
  lemma NameOrMeaning(es: seq<Entry>, ref: Ref, default: string)
    ensures ref.None? ==> NameOr(NameMap(es), ref, default) == default
    ensures ref.Some? && (forall i :: 0 <= i < |es| ==> es[i].0 != ref.value) ==>
      NameOr(NameMap(es), ref, default) == default
    ensures forall i :: 0 <= i < |es| && UniqueIds(es) && ref == Some(es[i].0) ==>
      NameOr(NameMap(es), ref, default) == es[i].1
  {
    forall i | 0 <= i < |es| && UniqueIds(es) && ref == Some(es[i].0)
      ensures NameOr(NameMap(es), ref, default) == es[i].1
    {
      NameMapLatest(es, i);
    }
  }

  /** The position of the first entry with the given id, as a loop with `break` finds it. */
  function IndexOf(es: seq<Entry>, id: int): (r: Option<nat>)
    ensures r.Some? ==> r.value < |es| && es[r.value].0 == id && forall j :: 0 <= j < r.value ==> es[j].0 != id
    ensures r.None? ==> forall j :: 0 <= j < |es| ==> es[j].0 != id
  {
    if es == [] then None
    else if es[0].0 == id then Some(0)
    else match IndexOf(es[1..], id)
      case None => None
      case Some(k) => Some(k + 1)
  }
}
