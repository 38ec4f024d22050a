/** The second instance of the cycle check: wildcards refer to each other by name, without
    regard to case. */
module WildcardCheck {
  import opened Prelude
  import opened Digraph
  import opened CycleCheck
  import opened Envelope

  /** A wildcard and the names its entries refer to, already in lower case. */
  datatype Wildcard = Wildcard(name: string, refs: seq<string>)

  /** Nameless wildcards are skipped; of several with one name the last counts. */
  function NameGraph(items: seq<Wildcard>): Graph {
    if items == [] then map[]
    else
      var front := NameGraph(items[..|items| - 1]);
      var last := items[|items| - 1];
      if last.name == "" then front else front[Lower(last.name) := last.refs]
  }

  /** The nodes are the lower-cased names in use, each with the references of the last wildcard
      of that name. */
  lemma {:induction false} LastNameCounts(items: seq<Wildcard>, key: string)
    ensures key in NameGraph(items) <==> exists i :: 0 <= i < |items| && items[i].name != "" && Lower(items[i].name) == key
    ensures key in NameGraph(items) ==>
      exists i :: 0 <= i < |items| && items[i].name != "" && Lower(items[i].name) == key
                  && NameGraph(items)[key] == items[i].refs
                  && forall j :: i < j < |items| ==> Lower(items[j].name) != key
  {
    if items != [] {
      var front, last := items[..|items| - 1], items[|items| - 1];
      LastNameCounts(front, key);
      if last.name != "" && Lower(last.name) == key {
        assert items[|front|].name != "";
      } else if key in NameGraph(front) {
        var i :| 0 <= i < |front| && front[i].name != "" && Lower(front[i].name) == key
                 && NameGraph(front)[key] == front[i].refs
                 && forall j :: i < j < |front| ==> Lower(front[j].name) != key;
        assert items[i] == front[i] && forall j :: i < j < |items| ==> Lower(items[j].name) != key;
      }
      assert forall i :: 0 <= i < |front| ==> items[i] == front[i];
    }
  }

  method CheckForCycles(items: seq<Wildcard>, rootName: string) returns (found: Option<seq<Id>>)
    ensures found.Some? <==> CycleReachable(NameGraph(items), Lower(rootName))
    ensures found.Some? ==> Lasso(NameGraph(items), Lower(rootName), found.value)
  {
    var nameRefs: Graph := map[];
    for i := 0 to |items|
      invariant nameRefs == NameGraph(items[..i])
    {
      var key := Lower(items[i].name);
      if key != "" {
        nameRefs := nameRefs[key := items[i].refs];
      }
      assert items[..i + 1][..i] == items[..i];
      assert key == "" <==> items[i].name == "";
    }
    assert items[..|items|] == items;
    found := CheckFrom(nameRefs, Lower(rootName));
  }
}
