/** The task list page: the local list kept in step with the server's replies. */
module TasksPage {
  import opened Wrappers
  import opened Text
  import Seqs

  datatype Task = Task(id: int, title: string, completed: bool)

  /** `tasks.find(t => t.id === id)`. */
  function FindTask(tasks: seq<Task>, id: int): (r: Option<Task>)
    ensures r.None? <==> forall i :: 0 <= i < |tasks| ==> tasks[i].id != id
    ensures r.Some? ==> r.value in tasks && r.value.id == id
    decreases |tasks|
  {
    if tasks == [] then None
    else if tasks[0].id == id then Some(tasks[0])
    else
      var r := FindTask(tasks[1..], id);
      assert forall i :: 1 <= i < |tasks| ==> tasks[i] == tasks[1..][i - 1];
      r
  }

  /** `tasks.map(t => t.id === id ? reply : t)`. */
  function ReplaceById(tasks: seq<Task>, id: int, reply: Task): seq<Task> {
    seq(|tasks|, i requires 0 <= i < |tasks| => if tasks[i].id == id then reply else tasks[i])
  }

  /** `tasks.filter(t => t.id !== id)`. */
  function RemoveById(tasks: seq<Task>, id: int): seq<Task> {
    Seqs.Filter(tasks, (t: Task) => t.id != id)
  }

  /** Replacing keeps the length and every other task, and replacing again with the same reply
      changes nothing when the reply keeps the id. */
  lemma ReplaceByIdEffect(tasks: seq<Task>, id: int, reply: Task)
    requires reply.id == id
    ensures |ReplaceById(tasks, id, reply)| == |tasks|
    ensures forall i :: 0 <= i < |tasks| && tasks[i].id != id ==> ReplaceById(tasks, id, reply)[i] == tasks[i]
    ensures ReplaceById(ReplaceById(tasks, id, reply), id, reply) == ReplaceById(tasks, id, reply)
    ensures RemoveById(ReplaceById(tasks, id, reply), id) == RemoveById(tasks, id)
  {
    RemoveAfterReplace(tasks, id, reply);
  }

  lemma {:induction false} RemoveAfterReplace(tasks: seq<Task>, id: int, reply: Task)
    requires reply.id == id
    ensures RemoveById(ReplaceById(tasks, id, reply), id) == RemoveById(tasks, id)
    decreases |tasks|
  {
    if tasks != [] {
      RemoveAfterReplace(tasks[1..], id, reply);
      var r := ReplaceById(tasks, id, reply);
      assert r[1..] == ReplaceById(tasks[1..], id, reply);
    }
  }

  /** Deleting removes every task with the id and keeps the others, in order. */
  lemma RemoveByIdExact(tasks: seq<Task>, id: int, t: Task)
    ensures t in RemoveById(tasks, id) <==> t in tasks && t.id != id
    ensures Seqs.IsSubsequence(RemoveById(tasks, id), tasks)
  {
    Seqs.FilterIsSubsequence(tasks, (t: Task) => t.id != id);
    if t in tasks && t.id != id {
      var i :| 0 <= i < |tasks| && tasks[i] == t;
    }
  }

  class Page {
    var tasks: seq<Task>
    var newTaskTitle: string

    constructor ()
      ensures tasks == [] && newTaskTitle == ""
    {
      tasks, newTaskTitle := [], "";
    }

    /** `createTask`: nothing for a blank title; otherwise the title is posted as typed and,
        once the post has succeeded, the input is cleared and the server's task appended. A
        rejected post changes nothing. */
    method CreateTask(reply: Task, succeeded: bool) returns (posted: Option<string>)
      modifies this
      ensures AllSpace(old(newTaskTitle)) ==> posted == None
      ensures !AllSpace(old(newTaskTitle)) ==> posted == Some(old(newTaskTitle))
      ensures posted.Some? && succeeded ==> newTaskTitle == "" && tasks == old(tasks) + [reply]
      ensures !(posted.Some? && succeeded) ==> tasks == old(tasks) && newTaskTitle == old(newTaskTitle)
    {
      TrimShape(newTaskTitle);
      if Trim(newTaskTitle) == "" {
        return None;
      }
      posted := Some(newTaskTitle);
      if succeeded {
        newTaskTitle := "";
        tasks := tasks + [reply];
      }
    }

    /** `toggleTask`: the first task with the id is sent with `completed` negated, then every
        task with the id is replaced by the reply. Without such a task nothing is sent. */
    method ToggleTask(id: int, reply: Task, succeeded: bool) returns (sent: Option<Task>)
      modifies this
      ensures FindTask(old(tasks), id).None? ==> sent == None
      ensures FindTask(old(tasks), id).Some? ==>
                sent == Some(FindTask(old(tasks), id).value.(completed := !FindTask(old(tasks), id).value.completed))
      ensures sent.Some? && succeeded ==> tasks == ReplaceById(old(tasks), id, reply)
      ensures !(sent.Some? && succeeded) ==> tasks == old(tasks)
      ensures newTaskTitle == old(newTaskTitle)
    {
      var task := FindTask(tasks, id);
      if task.None? {
        return None;
      }
      sent := Some(task.value.(completed := !task.value.completed));
      if succeeded {
        tasks := ReplaceById(tasks, id, reply);
      }
    }

    /** `deleteTask`: the delete is sent, and only once it has succeeded are the tasks with the
        id dropped from the list. */
    method DeleteTask(id: int, succeeded: bool)
      modifies this
      ensures succeeded ==> tasks == RemoveById(old(tasks), id)
      ensures !succeeded ==> tasks == old(tasks)
      ensures newTaskTitle == old(newTaskTitle)
    {
      if succeeded {
        tasks := Seqs.Filter(tasks, (t: Task) => t.id != id);
      }
    }
  }
}
