/** The task-list manager: the live list under `#list-container`, the text of
    `#input-box`, and the value kept in local storage, with the page's handlers as
    methods. */
module TodoApp {
  import opened Wrappers
  import opened JsString
  import opened Tasks

  /** How an add attempt ends: the task was appended, or the page showed an alert. */
  datatype AddOutcome = Added | Alerted(message: string)

  class TodoList {
    /** The `<li>` elements of the list container, in document order. */
    var tasks: seq<Task>
    /** The current value of the input box. */
    var input: string
    /** The value under the storage key, `None` when the key is absent. */
    var store: Option<StoredValue>

    /** The store holds exactly the live list, as `saveData` leaves it. */
    ghost predicate Synced()
      reads this
    {
      store == Some(TaskArray(tasks))
    }

    /** Reloading the page would rebuild exactly the live list. */
    ghost predicate Consistent()
      reads this
    {
      Restored(store) == Some(tasks)
    }

    /** The page as loaded, before `showTasks` runs: an empty list and an empty input
        box, over whatever the storage already holds. */
    constructor (stored: Option<StoredValue>)
      ensures tasks == [] && input == "" && store == stored
    {
      tasks := [];
      input := "";
      store := stored;
    }

    /** The user typing into the input box (done by the browser, not by the page). */
    method SetInput(text: string)
      modifies this`input
      ensures input == text
    {
      input := text;
    }

    /** The records `saveData` collects, one per `<li>`, in document order. */
    method Snapshot() returns (records: seq<Task>)
      ensures records == tasks
    {
      records := [];
      var k := 0;
      while k < |tasks|
        invariant 0 <= k <= |tasks|
        invariant records == tasks[..k]
      {
        var li := tasks[k];
        records := records + [Task(li.text, li.checked)];
        k := k + 1;
      }
    }

    /** `saveData`: overwrite the stored value with the whole live list. */
    method Save()
      modifies this`store
      ensures Synced()
    {
      var records := Snapshot();
      store := Some(TaskArray(records));
    }

    /** `addTask`: a blank input raises the alert and changes nothing; any other input
        is appended as it was typed, unchecked, then the input box is cleared and the
        list saved. */
    method AddTask() returns (outcome: AddOutcome)
      modifies this
      ensures Trim(old(input)) == "" ==>
        && outcome == Alerted(BlankInputAlert)
        && tasks == old(tasks) && input == old(input) && store == old(store)
      ensures Trim(old(input)) != "" ==>
        && outcome == Added
        && tasks == old(tasks) + [Task(old(input), false)]
        && input == "" && Synced()
    {
      if Trim(input) == "" {
        return Alerted(BlankInputAlert);
      }
      tasks := tasks + [Task(input, false)];
      input := "";
      Save();
      outcome := Added;
    }

    /** The delete button of task `i`: remove that `<li>`, then save. */
    method DeleteTask(i: nat)
      requires i < |tasks|
      modifies this
      ensures tasks == Removed(old(tasks), i)
      ensures input == old(input) && Synced()
    {
      tasks := tasks[..i] + tasks[i + 1..];
      Save();
    }

    /** The edit button of task `i`, given the prompt's answer (`None` when it was
        cancelled): an answer that is cancelled or blank after trimming changes
        nothing; otherwise the task's text becomes the trimmed answer, its flag is
        kept, and the list is saved. */
    method EditTask(i: nat, reply: Option<string>) returns (edited: bool)
      requires i < |tasks|
      modifies this
      ensures edited <==> reply.Some? && Trim(reply.value) != ""
      ensures edited ==> tasks == Retexted(old(tasks), i, Trim(reply.value)) && Synced()
      ensures edited ==> Trim(tasks[i].text) == tasks[i].text
      ensures !edited ==> tasks == old(tasks) && store == old(store)
      ensures input == old(input)
    {
      edited := false;
      if reply.Some? && Trim(reply.value) != "" {
        tasks := tasks[i := tasks[i].(text := Trim(reply.value))];
        TrimIdempotent(reply.value);
        Save();
        edited := true;
      }
    }

    /** A click elsewhere on task `i`: toggle its `checked` class, then save. */
    method ToggleTask(i: nat)
      requires i < |tasks|
      modifies this
      ensures tasks == Toggled(old(tasks), i)
      ensures input == old(input) && Synced()
    {
      tasks := tasks[i := Task(tasks[i].text, !tasks[i].checked)];
      Save();
    }

    /** `showTasks`: when the stored value is present and not the empty string, parse
        it and append one `<li>` per record, in stored order, checked exactly when the
        record is. Malformed text throws (`ok` is false) before anything is appended.
        The store is read, never written. */
    method ShowTasks() returns (ok: bool)
      modifies this`tasks
      ensures ok <==> store != Some(Malformed)
      ensures ok ==> tasks == old(tasks) + Restored(store).value
      ensures !ok ==> tasks == old(tasks)
    {
      var data := store;
      if data.None? || data.value == EmptyText {
        return true;
      }
      if data.value.Malformed? {
        return false;
      }
      var records := data.value.records;
      var k := 0;
      while k < |records|
        invariant 0 <= k <= |records|
        invariant tasks == old(tasks) + records[..k]
      {
        var record := records[k];
        var li := Task(record.text, false);
        if record.checked {
          li := li.(checked := true);
        }
        tasks := tasks + [li];
        k := k + 1;
      }
      ok := true;
    }

    /** A list whose store holds it is one a reload reproduces. */
    lemma SyncedIsConsistent()
      requires Synced()
      ensures Consistent()
    {
    }
  }

  /** Page start-up: the page over the stored value, then `showTasks`. Unless the stored
      text is malformed, the list shown is what the store restores. */
  method Open(stored: Option<StoredValue>) returns (list: TodoList, ok: bool)
    ensures fresh(list) && list.store == stored && list.input == ""
    ensures ok <==> stored != Some(Malformed)
    ensures ok ==> list.Consistent()
    ensures !ok ==> list.tasks == []
  {
    list := new TodoList(stored);
    ok := list.ShowTasks();
    RestoreFailsOnlyOnMalformed(stored);
    assert list.store == stored;
    assert ok ==> Restored(stored).Some?;
    assert ok ==> list.tasks == [] + Restored(stored).value;
    assert ok ==> list.tasks == Restored(stored).value;
  }

  /** Saving the list and loading the page again shows the same tasks, in the same
      order, with the same flags. */
  method SaveAndReload(list: TodoList) returns (reloaded: TodoList)
    modifies list
    ensures list.tasks == old(list.tasks) && list.Synced()
    ensures fresh(reloaded) && reloaded.tasks == list.tasks
  {
    list.Save();
    var ok;
    reloaded, ok := Open(list.store);
  }

  /** The first half of a session of the page: add a task to an empty list, then
      tick it. */
  method ExampleFirstTask() returns (list: TodoList)
    ensures fresh(list) && list.tasks == [Task("Buy milk", true)]
    ensures list.Synced() && list.input == ""
  {
    var ok;
    list, ok := Open(None);
    list.SetInput("Buy milk");
    assert !IsTrimmable("Buy milk"[0]) && Trim("Buy milk") != "";
    var added := list.AddTask();
    assert list.tasks == [Task("Buy milk", false)] && list.Synced();
    list.ToggleTask(0);
  }

  /** A session of the page: add, toggle, add, delete, with the store following the
      list after every step. */
  method ExampleSession() returns (list: TodoList)
    ensures list.tasks == [Task("Walk dog", false)] && list.Synced() && list.input == ""
  {
    list := ExampleFirstTask();
    list.SetInput("Walk dog");
    assert !IsTrimmable("Walk dog"[0]) && Trim("Walk dog") != "";
    var added := list.AddTask();
    assert list.tasks == [Task("Buy milk", true), Task("Walk dog", false)] && list.Synced();
    list.DeleteTask(0);
  }
}
