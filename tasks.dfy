/** The values the to-do list is made of: a task record, the value kept under the
    storage key, and the list operations on sequences of tasks that the page's
    handlers perform on the live list. */
module Tasks {
  import opened Wrappers

  /** One `<li>` of the list, or one record of the stored JSON array: the contents of
      its `.task-text` span, and whether it carries the `checked` class. */
  datatype Task = Task(text: string, checked: bool)

  /** What `localStorage.getItem("todoListData")` can return when the key is present.
      `EmptyText` is the empty string, which the page treats like an absent key;
      `Malformed` is any text that `JSON.parse`, or the `forEach` over its result,
      rejects before a single task is built; `TaskArray` is a JSON array of
      `{text, checked}` records, in array order. */
  datatype StoredValue = EmptyText | Malformed | TaskArray(records: seq<Task>)

  /** The one storage key the page reads and writes. */
  const StorageKey: string := "todoListData"

  /** The alert shown when the input is blank. */
  const BlankInputAlert: string := "You must write something!"

  /** The tasks start-up would show from the stored value `v` in an empty list, or
      `None` when reading `v` throws. */
  function Restored(v: Option<StoredValue>): Option<seq<Task>>
  {
    match v
    case None => Some([])
    case Some(EmptyText) => Some([])
    case Some(Malformed) => None
    case Some(TaskArray(records)) => Some(records)
  }

  /** `ts` without its `i`-th task; the others keep their order. */
  function Removed(ts: seq<Task>, i: nat): (r: seq<Task>)
    requires i < |ts|
    ensures |r| == |ts| - 1
    ensures forall j :: 0 <= j < i ==> r[j] == ts[j]
    ensures forall j :: i <= j < |r| ==> r[j] == ts[j + 1]
    ensures multiset(r) + multiset{ts[i]} == multiset(ts)
  {
    assert ts == ts[..i] + [ts[i]] + ts[i + 1..];
    ts[..i] + ts[i + 1..]
  }

  /** `ts` with the `i`-th task's flag flipped and nothing else changed. */
  function Toggled(ts: seq<Task>, i: nat): (r: seq<Task>)
    requires i < |ts|
    ensures |r| == |ts|
    ensures r[i].text == ts[i].text && r[i].checked == !ts[i].checked
    ensures forall j :: 0 <= j < |ts| && j != i ==> r[j] == ts[j]
  {
    ts[i := ts[i].(checked := !ts[i].checked)]
  }

  /** `ts` with the `i`-th task's text replaced by `text`, its flag kept, and nothing
      else changed. */
  function Retexted(ts: seq<Task>, i: nat, text: string): (r: seq<Task>)
    requires i < |ts|
    ensures |r| == |ts|
    ensures r[i].text == text && r[i].checked == ts[i].checked
    ensures forall j :: 0 <= j < |ts| && j != i ==> r[j] == ts[j]
  {
    ts[i := ts[i].(text := text)]
  }

  /** Toggling the same task twice restores the list. */
  lemma ToggleTwice(ts: seq<Task>, i: nat)
    requires i < |ts|
    ensures Toggled(Toggled(ts, i), i) == ts
  {
  }

  /** Removing a task leaves exactly the tasks around it: the prefix before `i` and the
      suffix after it, so deleting never reorders what remains. */
  lemma RemovedIsSplice(ts: seq<Task>, i: nat)
    requires i < |ts|
    ensures Removed(ts, i)[..i] == ts[..i] && Removed(ts, i)[i..] == ts[i + 1..]
  {
  }

  /** An absent key, or one holding the empty string, restores an empty list. */
  lemma RestoreEmpty(v: Option<StoredValue>)
    requires v.None? || v == Some(EmptyText)
    ensures Restored(v) == Some([])
  {
  }

  /** Only malformed text makes start-up fail. */
  lemma RestoreFailsOnlyOnMalformed(v: Option<StoredValue>)
    ensures Restored(v).None? <==> v == Some(Malformed)
  {
  }

  /** What was stored as a task array is what start-up restores. */
  lemma RestoreAfterSave(ts: seq<Task>)
    ensures Restored(Some(TaskArray(ts))) == Some(ts)
  {
  }
}
