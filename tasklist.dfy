/**
 * The ordered task list: rows of (id, content), edited by inserting a blank
 * row after a position, changing a row's content, deleting a row, loading the
 * sample data and reordering by drag. The list's invariant is that ids are
 * unique and that it never becomes empty.
 */
module TaskList {

  /** One row of the task list. */
  datatype TaskItem = TaskItem(id: string, content: string)

  /** The ids of the rows, in order. */
  function Ids(ts: seq<TaskItem>): seq<string> {
    seq(|ts|, i requires 0 <= i < |ts| => ts[i].id)
  }

  /** No element occurs twice. */
  predicate Distinct<T(==)>(s: seq<T>) {
    forall i, j :: 0 <= i < j < |s| ==> s[i] != s[j]
  }

  /** The task-list invariant: at least one row, and no id used twice. */
  predicate WellFormed(ts: seq<TaskItem>) {
    |ts| >= 1 && Distinct(Ids(ts))
  }

  /** The list the application starts with: one blank row with id "1". */
  const InitialTasks: seq<TaskItem> := [TaskItem("1", "")]

  lemma InitialWellFormed()
    ensures WellFormed(InitialTasks) && |InitialTasks| == 1 && InitialTasks[0].content == ""
  {
  }

  // ---------------------------------------------------------------------------
  // Updating a row's content

  /** The row with id `id` gets `content`; every other row is kept as it is. */
  function UpdateContent(ts: seq<TaskItem>, id: string, content: string): seq<TaskItem> {
    seq(|ts|, i requires 0 <= i < |ts| => if ts[i].id == id then ts[i].(content := content) else ts[i])
  }

  /** An update keeps the length and the ids, changes only the matching row, and is a no-op for an absent id. */
  lemma UpdateContentSpec(ts: seq<TaskItem>, id: string, content: string)
    ensures var r := UpdateContent(ts, id, content);
      && |r| == |ts| && Ids(r) == Ids(ts)
      && (forall i :: 0 <= i < |ts| && ts[i].id != id ==> r[i] == ts[i])
      && (forall i :: 0 <= i < |ts| && ts[i].id == id ==> r[i] == TaskItem(id, content))
      && (id !in Ids(ts) ==> r == ts)
  {
    var r := UpdateContent(ts, id, content);
    if id !in Ids(ts) {
      assert forall i :: 0 <= i < |ts| ==> ts[i].id == Ids(ts)[i];
    }
  }

  lemma UpdatePreservesWellFormed(ts: seq<TaskItem>, id: string, content: string)
    requires WellFormed(ts)
    ensures WellFormed(UpdateContent(ts, id, content))
  {
    UpdateContentSpec(ts, id, content);
  }

  // ---------------------------------------------------------------------------
  // Deleting a row

  /** The rows whose id is not `id`, in their original order (`Array.prototype.filter`). */
  function RemoveId(ts: seq<TaskItem>, id: string): (r: seq<TaskItem>)
    ensures |r| <= |ts|
    ensures id !in Ids(r)
  {
    if ts == [] then []
    else if ts[0].id == id then RemoveId(ts[1..], id)
    else
      var rest := RemoveId(ts[1..], id);
      assert Ids([ts[0]] + rest) == [ts[0].id] + Ids(rest);
      [ts[0]] + rest
  }

  /** Filtering out an id that no row has changes nothing. */
  lemma {:induction false} RemoveAbsent(ts: seq<TaskItem>, id: string)
    requires id !in Ids(ts)
    ensures RemoveId(ts, id) == ts
  {
    if ts != [] {
      assert ts[0].id == Ids(ts)[0];
      assert Ids(ts[1..]) == Ids(ts)[1..];
      RemoveAbsent(ts[1..], id);
    }
  }

  /** With unique ids, filtering out the id of row `k` removes exactly that row. */
  lemma {:induction false} RemoveAt(ts: seq<TaskItem>, id: string, k: nat)
    requires Distinct(Ids(ts))
    requires k < |ts| && ts[k].id == id
    ensures RemoveId(ts, id) == ts[..k] + ts[k + 1..]
  {
    assert Ids(ts[1..]) == Ids(ts)[1..];
    if k == 0 {
      assert id !in Ids(ts[1..]) by {
        forall i | 0 <= i < |ts| - 1 ensures Ids(ts[1..])[i] != id {
          assert Ids(ts)[0] != Ids(ts)[i + 1];
        }
      }
      RemoveAbsent(ts[1..], id);
    } else {
      assert Ids(ts)[0] != Ids(ts)[k];
      RemoveAt(ts[1..], id, k - 1);
      assert ts[1..][..k - 1] + ts[1..][k..] == ts[1..k] + ts[k + 1..];
      assert [ts[0]] + ts[1..k] == ts[..k];
    }
  }

  /**
   * `handleDeleteTask`: on a list of at most one row the row is cleared
   * instead of removed; otherwise the rows with that id are filtered out.
   */
  function Delete(ts: seq<TaskItem>, id: string): seq<TaskItem> {
    if |ts| <= 1 then UpdateContent(ts, id, "") else RemoveId(ts, id)
  }

  /** Removing row `k` keeps the other ids unique. */
  lemma DistinctWithout(ts: seq<TaskItem>, k: nat)
    requires Distinct(Ids(ts)) && k < |ts|
    ensures Distinct(Ids(ts[..k] + ts[k + 1..]))
  {
    var r := ts[..k] + ts[k + 1..];
    forall i, j | 0 <= i < j < |r| ensures Ids(r)[i] != Ids(r)[j] {
      var i' := if i < k then i else i + 1;
      var j' := if j < k then j else j + 1;
      assert r[i] == ts[i'] && r[j] == ts[j'];
      assert Ids(ts)[i'] != Ids(ts)[j'];
    }
  }

  /**
   * Deleting from a one-row list clears that row and keeps the length at one;
   * deleting from a longer list removes exactly the matching row and keeps the
   * rest in order; deleting an absent id changes nothing.
   */
  lemma DeleteSpec(ts: seq<TaskItem>, id: string)
    requires WellFormed(ts)
    ensures |ts| == 1 ==> Delete(ts, id) == UpdateContent(ts, id, "") && |Delete(ts, id)| == 1
    ensures |ts| == 1 && ts[0].id == id ==> Delete(ts, id) == [TaskItem(id, "")]
    ensures |ts| >= 2 ==> forall k :: 0 <= k < |ts| && ts[k].id == id ==> Delete(ts, id) == ts[..k] + ts[k + 1..]
    ensures id !in Ids(ts) ==> Delete(ts, id) == ts
  {
    UpdateContentSpec(ts, id, "");
    if |ts| >= 2 {
      forall k | 0 <= k < |ts| && ts[k].id == id ensures Delete(ts, id) == ts[..k] + ts[k + 1..] {
        RemoveAt(ts, id, k);
      }
      if id !in Ids(ts) { RemoveAbsent(ts, id); }
    }
  }

  /** Deleting never empties the list and keeps ids unique. */
  lemma DeletePreservesWellFormed(ts: seq<TaskItem>, id: string)
    requires WellFormed(ts)
    ensures WellFormed(Delete(ts, id))
    ensures |Delete(ts, id)| >= |ts| - 1
  {
    DeleteSpec(ts, id);
    if |ts| <= 1 {
      UpdatePreservesWellFormed(ts, id, "");
    } else if k :| 0 <= k < |ts| && ts[k].id == id {
      DistinctWithout(ts, k);
    }
  }

  // ---------------------------------------------------------------------------
  // Inserting a row

  /**
   * Where `Array.prototype.splice` starts for a start argument `start` on an
   * array of length `len`: a negative start counts from the end, and the
   * result is clamped into 0..len.
   */
  function SpliceStart(start: int, len: nat): (p: nat)
    ensures p <= len
    ensures 0 <= start <= len ==> p == start
  {
    if start < 0 then (if len + start < 0 then 0 else len + start)
    else if start > len then len
    else start
  }

  /** `handleAddTask(index)`: a blank row with id `id` spliced in at `index + 1`. */
  function InsertAfter(ts: seq<TaskItem>, index: int, id: string): seq<TaskItem> {
    var p := SpliceStart(index + 1, |ts|);
    ts[..p] + [TaskItem(id, "")] + ts[p..]
  }

  /**
   * For a row index of the list, the new blank row lands right after it: rows
   * 0..index are unchanged and the later rows shift right by one, in order.
   */
  lemma InsertAfterSpec(ts: seq<TaskItem>, index: int, id: string)
    requires 0 <= index < |ts|
    ensures var r := InsertAfter(ts, index, id);
      && |r| == |ts| + 1
      && r[index + 1] == TaskItem(id, "")
      && r[..index + 1] == ts[..index + 1]
      && r[index + 2..] == ts[index + 1..]
  {
    var r := InsertAfter(ts, index, id);
    assert r[..index + 1] == ts[..index + 1];
    assert r[index + 2..] == ts[index + 1..];
  }

  /** The "add row" button, which inserts after the last row, appends. */
  lemma InsertAfterLastAppends(ts: seq<TaskItem>, id: string)
    requires |ts| >= 1
    ensures InsertAfter(ts, |ts| - 1, id) == ts + [TaskItem(id, "")]
  {
  }

  /** Inserting a row whose id is not yet used keeps the invariant. */
  lemma InsertPreservesWellFormed(ts: seq<TaskItem>, index: int, id: string)
    requires WellFormed(ts) && id !in Ids(ts)
    ensures WellFormed(InsertAfter(ts, index, id))
  {
    var p := SpliceStart(index + 1, |ts|);
    var r := InsertAfter(ts, index, id);
    forall i, j | 0 <= i < j < |r| ensures Ids(r)[i] != Ids(r)[j] {
      if i != p && j != p {
        var i' := if i < p then i else i - 1;
        var j' := if j < p then j else j - 1;
        assert r[i] == ts[i'] && r[j] == ts[j'];
        assert Ids(ts)[i'] != Ids(ts)[j'];
      } else if i == p {
        var j' := j - 1;
        assert r[j] == ts[j'] && Ids(ts)[j'] == ts[j'].id;
      } else {
        var i' := if i < p then i else i - 1;
        assert r[i] == ts[i'] && Ids(ts)[i'] == ts[i'].id;
      }
    }
  }

  /**
   * The handler's `[...tasks]` copy followed by an in-place `splice` that
   * inserts one blank row: the array is one longer than the list, the rows
   * before the splice position are copied, the new row is written, and the
   * remaining rows are copied one place to the right.
   */
  method CopyAndSplice(ts: seq<TaskItem>, index: int, id: string) returns (r: seq<TaskItem>)
    ensures r == InsertAfter(ts, index, id)
  {
    var p := SpliceStart(index + 1, |ts|);
    var item := TaskItem(id, "");
    var a := new TaskItem[|ts| + 1](_ => item);
    for i := 0 to p
      invariant forall k :: 0 <= k < i ==> a[k] == ts[k]
    {
      a[i] := ts[i];
    }
    a[p] := item;
    for i := p to |ts|
      invariant forall k :: 0 <= k < p ==> a[k] == ts[k]
      invariant a[p] == item
      invariant forall k :: p < k <= i ==> a[k] == ts[k - 1]
    {
      a[i + 1] := ts[i];
    }
    r := a[..];
  }

  // ---------------------------------------------------------------------------
  // Sample data

  /** The context text the sample button fills in. */
  const SampleContext: string := "市民意識調査アンケートの実施業務"

  /** The nine task texts the sample button loads. */
  const SampleTasks: seq<string> := [
    "調査項目の検討と決定",
    "アンケート用紙のデザイン作成",
    "印刷業者への発注",
    "配布対象者のリスト抽出",
    "封入と発送作業",
    "回答の回収とデータ入力",
    "集計結果のグラフ化",
    "報告書の執筆",
    "関係部署への報告会実施"
  ]

  /** `loadSampleData`'s list: one row per sample task, each with its own generated id. */
  function SampleList(ids: seq<string>): seq<TaskItem>
    requires |ids| == |SampleTasks|
  {
    seq(|SampleTasks|, i requires 0 <= i < |SampleTasks| => TaskItem(ids[i], SampleTasks[i]))
  }

  /** With distinct generated ids the sample list is well formed and holds the sample texts in order. */
  lemma SampleListSpec(ids: seq<string>)
    requires |ids| == |SampleTasks| && Distinct(ids)
    ensures WellFormed(SampleList(ids))
    ensures Ids(SampleList(ids)) == ids
    ensures |SampleList(ids)| == 9
    ensures forall i :: 0 <= i < 9 ==> SampleList(ids)[i].content == SampleTasks[i]
  {
    assert Ids(SampleList(ids)) == ids;
  }

  // ---------------------------------------------------------------------------
  // Reordering by drag

  /** A distinct sequence holds each value at most once. */
  lemma {:induction false} DistinctMultiplicity<T>(s: seq<T>, x: T)
    requires Distinct(s)
    ensures multiset(s)[x] <= 1
  {
    if s != [] {
      assert s == [s[0]] + s[1..];
      assert Distinct(s[1..]) by {
        forall i, j | 0 <= i < j < |s| - 1 ensures s[1..][i] != s[1..][j] { assert s[i + 1] != s[j + 1]; }
      }
      DistinctMultiplicity(s[1..], x);
      if s[0] == x {
        assert x !in s[1..] by {
          forall i | 0 <= i < |s| - 1 ensures s[1..][i] != x { assert s[0] != s[i + 1]; }
        }
      }
    }
  }

  /** A value at two positions occurs at least twice. */
  lemma RepeatMultiplicity<T>(s: seq<T>, i: nat, j: nat)
    requires i < j < |s| && s[i] == s[j]
    ensures multiset(s)[s[i]] >= 2
  {
    assert s == s[..j] + [s[j]] + s[j + 1..];
    assert s[i] in s[..j];
  }

  /** Any permutation of a well-formed list (what the drag library hands back) is well formed. */
  lemma PermutationPreservesWellFormed(ts: seq<TaskItem>, order: seq<TaskItem>)
    requires WellFormed(ts) && multiset(order) == multiset(ts)
    ensures WellFormed(order)
  {
    assert |order| == |multiset(order)| == |ts|;
    assert Distinct(ts) by {
      forall i, j | 0 <= i < j < |ts| ensures ts[i] != ts[j] { assert Ids(ts)[i] != Ids(ts)[j]; }
    }
    forall i, j | 0 <= i < j < |order| ensures Ids(order)[i] != Ids(order)[j] {
      assert order[i] in multiset(ts) && order[j] in multiset(ts);
      var i' :| 0 <= i' < |ts| && ts[i'] == order[i];
      var j' :| 0 <= j' < |ts| && ts[j'] == order[j];
      if i' == j' {
        RepeatMultiplicity(order, i, j);
        DistinctMultiplicity(ts, order[i]);
      } else if i' < j' {
        assert Ids(ts)[i'] != Ids(ts)[j'];
      } else {
        assert Ids(ts)[j'] != Ids(ts)[i'];
      }
    }
  }

  // ---------------------------------------------------------------------------
  // Keyboard

  /** The Backspace guard of a row: its content is empty and (it is not the first row or its content is empty). */
  predicate BackspaceDeletes(content: string, index: int) {
    content == "" && (index > 0 || content == "")
  }

  /** The guard's second conjunct adds nothing: Backspace deletes exactly the empty rows. */
  lemma BackspaceDeletesIffEmpty(content: string, index: int)
    ensures BackspaceDeletes(content, index) <==> content == ""
  {
  }

  // ---------------------------------------------------------------------------
  // Sequences of edits

  /** One change the user can make to the task list. */
  datatype Edit =
    | Add(index: int, newId: string)      // Enter in a row, or the add-row button
    | Update(id: string, content: string) // typing in a row
    | Remove(id: string)                  // Backspace on an empty row, or the delete button
    | LoadSample(ids: seq<string>)        // the sample button, with its generated ids
    | Reorder(order: seq<TaskItem>)       // a drag, with the order the drag library produced

  /** What the environment guarantees for an edit: fresh generated ids, and a drag only permutes. */
  predicate Allowed(ts: seq<TaskItem>, e: Edit) {
    match e
    case Add(_, newId) => newId !in Ids(ts)
    case LoadSample(ids) => |ids| == |SampleTasks| && Distinct(ids)
    case Reorder(order) => multiset(order) == multiset(ts)
    case _ => true
  }

  /** The list after one edit. */
  function ApplyEdit(ts: seq<TaskItem>, e: Edit): seq<TaskItem>
    requires Allowed(ts, e)
  {
    match e
    case Add(index, newId) => InsertAfter(ts, index, newId)
    case Update(id, content) => UpdateContent(ts, id, content)
    case Remove(id) => Delete(ts, id)
    case LoadSample(ids) => SampleList(ids)
    case Reorder(order) => order
  }

  /** Every edit of `es`, applied in turn from `ts`, is allowed at the point it is made. */
  predicate Admissible(ts: seq<TaskItem>, es: seq<Edit>)
    decreases es
  {
    es == [] || (Allowed(ts, es[0]) && Admissible(ApplyEdit(ts, es[0]), es[1..]))
  }

  /** The list after applying `es` in order. */
  function ApplyAll(ts: seq<TaskItem>, es: seq<Edit>): seq<TaskItem>
    requires Admissible(ts, es)
    decreases es
  {
    if es == [] then ts else ApplyAll(ApplyEdit(ts, es[0]), es[1..])
  }

  /** Every single edit keeps the invariant. */
  lemma EditPreservesWellFormed(ts: seq<TaskItem>, e: Edit)
    requires WellFormed(ts) && Allowed(ts, e)
    ensures WellFormed(ApplyEdit(ts, e))
  {
    match e
    case Add(index, newId) => InsertPreservesWellFormed(ts, index, newId);
    case Update(id, content) => UpdatePreservesWellFormed(ts, id, content);
    case Remove(id) => DeletePreservesWellFormed(ts, id);
    case LoadSample(ids) => SampleListSpec(ids);
    case Reorder(order) => PermutationPreservesWellFormed(ts, order);
  }

  /** Any admissible sequence of edits keeps ids unique and the list non-empty. */
  lemma {:induction false} EditsPreserveWellFormed(ts: seq<TaskItem>, es: seq<Edit>)
    requires WellFormed(ts) && Admissible(ts, es)
    ensures WellFormed(ApplyAll(ts, es))
    decreases es
  {
    if es != [] {
      EditPreservesWellFormed(ts, es[0]);
      EditsPreserveWellFormed(ApplyEdit(ts, es[0]), es[1..]);
    }
  }

  /** From the initial list, no admissible sequence of edits ever leaves the list empty. */
  lemma NeverEmpty(es: seq<Edit>)
    requires Admissible(InitialTasks, es)
    ensures |ApplyAll(InitialTasks, es)| >= 1
  {
    EditsPreserveWellFormed(InitialTasks, es);
  }
}
