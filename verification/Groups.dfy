/** How both engines cut a request's documents into groups whose working set fits the device (`_groups`). */
module Groups {
  import opened Allocator
  import opened Batching

  /** Device bytes for the query, `rows` document rows and their similarity matrix. */
  function Footprint(queryRows: nat, dimension: nat, scalarBytes: nat, rows: nat): nat {
    queryRows * dimension * scalarBytes + rows * dimension * scalarBytes + queryRows * rows * scalarBytes
  }

  lemma {:induction false} FootprintGrows(queryRows: nat, dimension: nat, scalarBytes: nat, rows: nat, more: nat)
    requires rows <= more
    ensures Footprint(queryRows, dimension, scalarBytes, rows) <= Footprint(queryRows, dimension, scalarBytes, more)
  {
    assert rows * dimension * scalarBytes <= more * dimension * scalarBytes by {
      assert (more - rows) * dimension >= 0;
      assert more * dimension == rows * dimension + (more - rows) * dimension;
      assert more * dimension * scalarBytes == rows * dimension * scalarBytes + (more - rows) * dimension * scalarBytes;
    }
    assert queryRows * rows * scalarBytes <= queryRows * more * scalarBytes by {
      assert queryRows * (more - rows) >= 0;
      assert queryRows * more == queryRows * rows + queryRows * (more - rows);
      assert queryRows * more * scalarBytes == queryRows * rows * scalarBytes + queryRows * (more - rows) * scalarBytes;
    }
  }

  function TotalRows(group: seq<Document>): nat {
    if group == [] then 0 else TotalRows(group[..|group| - 1]) + group[|group| - 1].rows
  }

  function Concat(groups: seq<seq<Document>>): seq<Document> {
    if groups == [] then [] else Concat(groups[..|groups| - 1]) + groups[|groups| - 1]
  }

  /** Every group is nonempty and within budget. */
  ghost predicate WithinBudget(groups: seq<seq<Document>>, queryRows: nat, dimension: nat, scalarBytes: nat,
                               budget: nat) {
    forall i :: 0 <= i < |groups| ==>
      groups[i] != [] && Footprint(queryRows, dimension, scalarBytes, TotalRows(groups[i])) <= budget
  }

  /** Group `g` could not have taken the first document of group `h`. */
  ghost predicate Tight(g: seq<Document>, h: seq<Document>, queryRows: nat, dimension: nat, scalarBytes: nat,
                        budget: nat) {
    h != [] ==> Footprint(queryRows, dimension, scalarBytes, TotalRows(g) + h[0].rows) > budget
  }

  ghost predicate Greedy(groups: seq<seq<Document>>, queryRows: nat, dimension: nat, scalarBytes: nat, budget: nat) {
    forall i, j :: 0 <= i < j < |groups| && j == i + 1 ==> Tight(groups[i], groups[j], queryRows, dimension,
                                                                 scalarBytes, budget)
  }

  /** Groups closed so far and the group being filled, after the documents before `i`. */
  ghost predicate Cutting(documents: seq<Document>, i: nat, groups: seq<seq<Document>>, group: seq<Document>,
                          queryRows: nat, dimension: nat, scalarBytes: nat, budget: nat)
    requires i <= |documents|
  {
    && Concat(groups) + group == documents[..i] && (group == [] ==> groups == [])
    && WithinBudget(groups, queryRows, dimension, scalarBytes, budget)
    && (group != [] ==> Footprint(queryRows, dimension, scalarBytes, TotalRows(group)) <= budget)
    && Greedy(groups + [group], queryRows, dimension, scalarBytes, budget)
  }

  lemma {:induction false} TotalRowsNext(group: seq<Document>, d: Document)
    ensures TotalRows(group + [d]) == TotalRows(group) + d.rows
  {
    assert (group + [d])[..|group|] == group;
  }

  lemma {:induction false} ConcatNext(groups: seq<seq<Document>>, group: seq<Document>)
    ensures Concat(groups + [group]) == Concat(groups) + group
  {
    assert (groups + [group])[..|groups|] == groups;
  }

  // Filling the last group does not change the first document of any group.
  lemma {:induction false} GreedyFill(groups: seq<seq<Document>>, group: seq<Document>, d: Document,
                   queryRows: nat, dimension: nat, scalarBytes: nat, budget: nat)
    requires Greedy(groups + [group], queryRows, dimension, scalarBytes, budget) && (group == [] ==> groups == [])
    ensures Greedy(groups + [group + [d]], queryRows, dimension, scalarBytes, budget)
  {
    hide Footprint;
    var a, b := groups + [group], groups + [group + [d]];
    forall i, j | 0 <= i < j < |b| && j == i + 1 ensures Tight(b[i], b[j], queryRows, dimension, scalarBytes, budget) {
      assert Tight(a[i], a[j], queryRows, dimension, scalarBytes, budget);
    }
  }

  // A group is closed when the next document does not fit it.
  lemma {:induction false} GreedyClose(groups: seq<seq<Document>>, d: Document, queryRows: nat, dimension: nat,
                                       scalarBytes: nat, budget: nat)
    requires Greedy(groups, queryRows, dimension, scalarBytes, budget)
    requires groups != [] ==> Tight(groups[|groups| - 1], [d], queryRows, dimension, scalarBytes, budget)
    ensures Greedy(groups + [[d]], queryRows, dimension, scalarBytes, budget)
  {
    hide Tight;
  }

  lemma {:induction false} CutKeep(documents: seq<Document>, i: nat, groups: seq<seq<Document>>, group: seq<Document>,
                queryRows: nat, dimension: nat, scalarBytes: nat, budget: nat)
    requires i < |documents| && Cutting(documents, i, groups, group, queryRows, dimension, scalarBytes, budget)
    requires Footprint(queryRows, dimension, scalarBytes, TotalRows(group) + documents[i].rows) <= budget
    ensures Cutting(documents, i + 1, groups, group + [documents[i]], queryRows, dimension, scalarBytes, budget)
  {
    hide Footprint;
    TotalRowsNext(group, documents[i]);
    GreedyFill(groups, group, documents[i], queryRows, dimension, scalarBytes, budget);
    assert Concat(groups) + (group + [documents[i]]) == documents[..i + 1];
    hide Greedy;
  }

  lemma {:induction false} CutClose(documents: seq<Document>, i: nat, groups: seq<seq<Document>>, group: seq<Document>,
                 queryRows: nat, dimension: nat, scalarBytes: nat, budget: nat)
    requires i < |documents| && Cutting(documents, i, groups, group, queryRows, dimension, scalarBytes, budget)
             && group != []
    requires Footprint(queryRows, dimension, scalarBytes, TotalRows(group) + documents[i].rows) > budget
    requires Footprint(queryRows, dimension, scalarBytes, documents[i].rows) <= budget
    ensures Cutting(documents, i + 1, groups + [group], [documents[i]], queryRows, dimension, scalarBytes, budget)
  {
    hide Footprint;
    TotalRowsNext([], documents[i]);
    assert [] + [documents[i]] == [documents[i]];
    ConcatNext(groups, group);
    assert Concat(groups) + group + [documents[i]] == documents[..i + 1];
    GreedyClose(groups + [group], documents[i], queryRows, dimension, scalarBytes, budget);
    hide Greedy;
  }

  /** Cut the documents, in order, into the largest groups that fit; refused exactly when one document alone does not.
      */
  method Cut(queryRows: nat, dimension: nat, scalarBytes: nat, documents: seq<Document>, budget: nat)
    returns (r: Option<seq<seq<Document>>>)
    ensures r.None? <==> exists d :: d in documents && Footprint(queryRows, dimension, scalarBytes, d.rows) > budget
    ensures r.Some? ==> Concat(r.value) == documents
    ensures r.Some? ==> WithinBudget(r.value, queryRows, dimension, scalarBytes, budget)
    ensures r.Some? ==> Greedy(r.value, queryRows, dimension, scalarBytes, budget)
  {
    var groups: seq<seq<Document>>, group: seq<Document>, groupRows := [], [], 0;
    hide Footprint;
    for i := 0 to |documents|
      invariant Cutting(documents, i, groups, group, queryRows, dimension, scalarBytes, budget)
                && groupRows == TotalRows(group)
      invariant forall j :: 0 <= j < i ==> Footprint(queryRows, dimension, scalarBytes, documents[j].rows) <= budget
    {
      hide Cutting;
      var rows := documents[i].rows;
      var nextRows := groupRows + rows;
      FootprintGrows(queryRows, dimension, scalarBytes, rows, nextRows);
      assert documents[i] in documents;
      if Footprint(queryRows, dimension, scalarBytes, nextRows) > budget && group != [] {
        if Footprint(queryRows, dimension, scalarBytes, rows) > budget {
          return None;
        }
        CutClose(documents, i, groups, group, queryRows, dimension, scalarBytes, budget);
        groups, group, groupRows := groups + [group], [documents[i]], rows;
      } else {
        if Footprint(queryRows, dimension, scalarBytes, nextRows) > budget {
          return None;
        }
        CutKeep(documents, i, groups, group, queryRows, dimension, scalarBytes, budget);
        TotalRowsNext(group, documents[i]);
        group, groupRows := group + [documents[i]], nextRows;
      }
    }
    if group != [] {
      ConcatNext(groups, group);
      r := Some(groups + [group]);
    } else {
      r := Some(groups);
    }
  }
}
