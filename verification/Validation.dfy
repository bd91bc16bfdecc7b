/** Exactly which calls the engine accepts, in terms of the names themselves. */
module Validation {
  import opened Wrappers
  import opened Naming
  import opened Text
  import Engine

  /** The name of a queue with a legal id in the location p/l. */
  ghost predicate NamesQueueIn(parent: string, name: string, p: string, l: string, id: string) {
    && IsSegment(p) && IsSegment(l) && LegalQueueID(id)
    && parent == "projects/" + p + "/locations/" + l
    && name == "projects/" + p + "/locations/" + l + "/queues/" + id
  }

  lemma ValidNameIff(name: string, p: string, l: string, id: string)
    ensures ParseQueueName(name) == Some(QueueName(p, l, id)) && IsQueueID(id) <==>
            IsSegment(p) && IsSegment(l) && LegalQueueID(id) && name == "projects/" + p + "/locations/" + l + "/queues/" + id
  {
    QueueIDIff(id);
    QueueRoundTrip(name, QueueName(p, l, id));
    if LegalQueueID(id) {
      LegalIsSegment(id);
    }
  }

  lemma NotEmptyName(name: string)
    requires ParseQueueName(name).Some?
    ensures name != ""
  {
    assert Split("", '/') == [[]];
  }

  lemma NamedIsValid(parent: string, name: string, p: string, l: string, id: string)
    requires NamesQueueIn(parent, name, p, l, id)
    ensures Engine.ValidQueueName(name) && ParseLocationName(parent).Some? && QueueParent(name) == parent
  {
    ValidNameIff(name, p, l, id);
    LocationRoundTrip(parent, Location(p, l));
    NotEmptyName(name);
  }

  lemma ValidIsNamed(parent: string, name: string) returns (p: string, l: string, id: string)
    requires Engine.ValidQueueName(name) && QueueParent(name) == parent
    ensures NamesQueueIn(parent, name, p, l, id)
  {
    var q := ParseQueueName(name).value;
    p, l, id := q.project, q.location, q.queue;
    ValidNameIff(name, p, l, id);
  }

  /**
   CreateQueue accepts exactly the names "projects/p/locations/l/queues/id" with a legal id under
   the parent "projects/p/locations/l" that are not taken; AlreadyExists means such a name that is
   taken, and everything else is InvalidArgument.
   */
  lemma CreateQueueIff(queues: set<string>, parent: string, name: string)
    ensures Engine.CreateQueueError(queues, parent, name) == None <==>
            name !in queues && exists p, l, id :: NamesQueueIn(parent, name, p, l, id)
    ensures Engine.CreateQueueError(queues, parent, name) == Some(AlreadyExists) <==>
            name in queues && exists p, l, id :: NamesQueueIn(parent, name, p, l, id)
    ensures Engine.CreateQueueError(queues, parent, name) in {None, Some(AlreadyExists), Some(InvalidArgument)}
  {
    if p, l, id :| NamesQueueIn(parent, name, p, l, id) {
      NamedIsValid(parent, name, p, l, id);
    }
    if ParseLocationName(parent).Some? && Engine.ValidQueueName(name) && QueueParent(name) == parent {
      var p, l, id := ValidIsNamed(parent, name);
    }
  }

  /** UpdateQueue accepts exactly the names of queues with a legal id, whatever their location. */
  lemma UpdateQueueIff(name: string)
    ensures Engine.ValidQueueName(name) <==> exists parent, p, l, id :: NamesQueueIn(parent, name, p, l, id)
  {
    if parent, p, l, id :| NamesQueueIn(parent, name, p, l, id) {
      NamedIsValid(parent, name, p, l, id);
    }
    if Engine.ValidQueueName(name) {
      var p, l, id := ValidIsNamed(QueueParent(name), name);
    }
  }

  /**
   A task name leads to a queue exactly when it is the queue's name, "/tasks/" and an id without
   slashes; a name that is not of that form for any queue name is InvalidArgument, and one whose
   queue is missing is NotFound.
   */
  lemma TaskQueueIff<T>(queues: map<string, T>, name: string, queue: string, id: string)
    requires ParseQueueName(queue).Some? && IsSegment(id) && name == queue + "/tasks/" + id
    ensures Engine.TaskQueue(queues, name) == if queue in queues then Ok(queues[queue]) else Err(NotFound)
  {
    ChildOf(queue, id);
  }

  lemma NoTaskName<T>(queues: map<string, T>, name: string)
    requires !exists queue, id :: ParseQueueName(queue).Some? && IsSegment(id) && name == queue + "/tasks/" + id
    ensures Engine.TaskQueue(queues, name) == Err(InvalidArgument)
  {
    if ParseTaskName(name).Some? {
      TaskNameForm(name);
    }
  }

  lemma TaskNameForm(name: string)
    requires ParseTaskName(name).Some?
    ensures exists queue, id :: ParseQueueName(queue).Some? && IsSegment(id) && name == queue + "/tasks/" + id
  {
    NamesDecompose(name);
    TaskRoundTrip(name, ParseTaskName(name).value);
    var queue, id := TaskQueueOf(name), TaskID(name);
    assert ParseQueueName(queue).Some? && IsSegment(id) && name == queue + "/tasks/" + id;
  }
}
