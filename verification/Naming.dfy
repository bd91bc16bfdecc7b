/**
 Resource names (core/naming.go): parsing is the inverse of printing, and a task name always
 belongs to the queue it was resolved against.
 */
module Naming {
  import opened Wrappers
  import opened Text
  import Decimal

  datatype Location = Location(project: string, location: string)
  datatype QueueName = QueueName(project: string, location: string, queue: string)
  datatype TaskName = TaskName(project: string, location: string, queue: string, task: string)

  /** What [^/]+ matches. */
  predicate IsSegment(s: string) {
    s != [] && '/' !in s
  }

  // ---- printing ----

  function LocationString(l: Location): string {
    "projects/" + l.project + "/locations/" + l.location
  }

  function QueueString(q: QueueName): string {
    "projects/" + q.project + "/locations/" + q.location + "/queues/" + q.queue
  }

  function TaskString(t: TaskName): string {
    "projects/" + t.project + "/locations/" + t.location + "/queues/" + t.queue + "/tasks/" + t.task
  }

  // ---- parsing: the anchored regular expressions, segment by segment ----

  function ParseLocationName(name: string): Option<Location> {
    var p := Split(name, '/');
    if |p| == 4 && p[0] == "projects" && p[1] != [] && p[2] == "locations" && p[3] != [] then
      Some(Location(p[1], p[3]))
    else None
  }

  function ParseQueueName(name: string): Option<QueueName> {
    var p := Split(name, '/');
    if && |p| == 6 && p[0] == "projects" && p[1] != [] && p[2] == "locations" && p[3] != []
       && p[4] == "queues" && p[5] != [] then
      Some(QueueName(p[1], p[3], p[5]))
    else None
  }

  function ParseTaskName(name: string): Option<TaskName> {
    var p := Split(name, '/');
    if && |p| == 8 && p[0] == "projects" && p[1] != [] && p[2] == "locations" && p[3] != []
       && p[4] == "queues" && p[5] != [] && p[6] == "tasks" && p[7] != [] then
      Some(TaskName(p[1], p[3], p[5], p[7]))
    else None
  }

  /** fmt prints the empty strings of a failed parse. */
  function QueueParent(queueName: string): string {
    match ParseQueueName(queueName)
    case Some(q) => LocationString(Location(q.project, q.location))
    case None => LocationString(Location("", ""))
  }

  function TaskQueueOf(taskName: string): string {
    match ParseTaskName(taskName)
    case Some(t) => QueueString(QueueName(t.project, t.location, t.queue))
    case None => QueueString(QueueName("", "", ""))
  }

  function QueueID(queueName: string): string {
    match ParseQueueName(queueName)
    case Some(q) => q.queue
    case None => ""
  }

  function TaskID(taskName: string): string {
    match ParseTaskName(taskName)
    case Some(t) => t.task
    case None => ""
  }

  predicate IsAlnum(c: char) {
    'A' <= c <= 'Z' || 'a' <= c <= 'z' || '0' <= c <= '9'
  }

  /** Task ids: letters, digits, hyphen and underscore, 1 to 500 of them. */
  predicate IsTaskID(id: string) {
    1 <= |id| <= 500 && forall i | 0 <= i < |id| :: IsAlnum(id[i]) || id[i] == '_' || id[i] == '-'
  }

  /** Queue ids: letters, digits and hyphen, 1 to 100 of them. */
  predicate IsQueueID(id: string) {
    1 <= |id| <= 100 && forall i | 0 <= i < |id| :: IsAlnum(id[i]) || id[i] == '-'
  }

  /** Validates a caller's task name against the parent queue, or builds one from a generated id. */
  function ResolveTaskName(parent: string, provided: string, generated: string): Result<string> {
    if provided == "" then Ok(parent + "/tasks/" + generated)
    else
      match ParseTaskName(provided)
      case None => Err(InvalidArgument)
      case Some(t) =>
        if !IsTaskID(t.task) then Err(InvalidArgument)
        else if TaskQueueOf(provided) != parent then Err(InvalidArgument)
        else Ok(provided)
  }

  /** The id nextTaskID generates: the decimal of a 64-bit counter. */
  function GeneratedID(clock: nat, seqNo: nat): string {
    Decimal.FormatNat((clock + seqNo) % 0x1_0000_0000_0000_0000)
  }

  // ---- printing as joining ----

  lemma LocationJoin(l: Location)
    ensures LocationString(l) == Join(["projects", l.project, "locations", l.location], '/')
  {
    ExtendJoin(["projects", l.project], "locations", l.location);
    assert ["projects", l.project] + ["locations", l.location] == ["projects", l.project, "locations", l.location];
    assert ["projects", l.project][1..] == [l.project];
    assert "projects/" == "projects" + ['/'];
    assert "/locations/" == ['/'] + "locations" + ['/'];
  }

  lemma QueueJoin(q: QueueName)
    ensures QueueString(q) == Join(["projects", q.project, "locations", q.location, "queues", q.queue], '/')
  {
    var l := ["projects", q.project, "locations", q.location];
    LocationJoin(Location(q.project, q.location));
    ExtendJoin(l, "queues", q.queue);
    assert l + ["queues", q.queue] == ["projects", q.project, "locations", q.location, "queues", q.queue];
    assert "/queues/" == ['/'] + "queues" + ['/'];
  }

  lemma TaskJoin(t: TaskName)
    ensures TaskString(t) ==
            Join(["projects", t.project, "locations", t.location, "queues", t.queue, "tasks", t.task], '/')
  {
    var q := ["projects", t.project, "locations", t.location, "queues", t.queue];
    QueueJoin(QueueName(t.project, t.location, t.queue));
    ExtendJoin(q, "tasks", t.task);
    assert q + ["tasks", t.task] == ["projects", t.project, "locations", t.location, "queues", t.queue, "tasks", t.task];
    assert "/tasks/" == ['/'] + "tasks" + ['/'];
  }

  lemma ExtendJoin(parts: seq<string>, word: string, value: string)
    requires |parts| >= 1
    ensures Join(parts + [word, value], '/') == Join(parts, '/') + (['/'] + word + ['/']) + value
  {
    JoinAppend(parts, word, '/');
    JoinAppend(parts + [word], value, '/');
    assert parts + [word, value] == parts + [word] + [value];
    Reassociate(Join(parts, '/'), ['/'], word, ['/'], value);
  }

  lemma Reassociate(a: string, b: string, c: string, d: string, e: string)
    ensures a + b + c + d + e == a + (b + c + d) + e
  {
    assert a + (b + c + d) == a + b + c + d;
  }

  // ---- parsing is the inverse of printing ----

  /** A location name parses to exactly the values it was printed from, and only such names parse. */
  lemma LocationRoundTrip(name: string, l: Location)
    ensures ParseLocationName(name) == Some(l)
            <==> name == LocationString(l) && IsSegment(l.project) && IsSegment(l.location)
  {
    var parts := ["projects", l.project, "locations", l.location];
    LocationJoin(l);
    if name == LocationString(l) && IsSegment(l.project) && IsSegment(l.location) {
      SplitJoin(parts, '/');
    }
    if ParseLocationName(name) == Some(l) {
      JoinSplit(name, '/');
      assert Split(name, '/') == parts;
    }
  }

  lemma QueueRoundTrip(name: string, q: QueueName)
    ensures ParseQueueName(name) == Some(q)
            <==> name == QueueString(q) && IsSegment(q.project) && IsSegment(q.location) && IsSegment(q.queue)
  {
    var parts := ["projects", q.project, "locations", q.location, "queues", q.queue];
    QueueJoin(q);
    if name == QueueString(q) && IsSegment(q.project) && IsSegment(q.location) && IsSegment(q.queue) {
      SplitJoin(parts, '/');
    }
    if ParseQueueName(name) == Some(q) {
      JoinSplit(name, '/');
      assert Split(name, '/') == parts;
    }
  }

  lemma TaskRoundTrip(name: string, t: TaskName)
    ensures ParseTaskName(name) == Some(t)
            <==> && name == TaskString(t)
                 && IsSegment(t.project) && IsSegment(t.location) && IsSegment(t.queue) && IsSegment(t.task)
  {
    var parts := ["projects", t.project, "locations", t.location, "queues", t.queue, "tasks", t.task];
    TaskJoin(t);
    if name == TaskString(t) && IsSegment(t.project) && IsSegment(t.location) && IsSegment(t.queue) && IsSegment(t.task) {
      SplitJoin(parts, '/');
    }
    if ParseTaskName(name) == Some(t) {
      JoinSplit(name, '/');
      assert Split(name, '/') == parts;
    }
  }

  /** A task name that parses is its queue's name, "/tasks/" and its id; likewise for a queue and its location. */
  lemma NamesDecompose(name: string)
    ensures ParseTaskName(name).Some? ==>
              && name == TaskQueueOf(name) + "/tasks/" + TaskID(name)
              && ParseQueueName(TaskQueueOf(name)).Some?
    ensures ParseQueueName(name).Some? ==>
              && name == QueueParent(name) + "/queues/" + QueueID(name)
              && ParseLocationName(QueueParent(name)).Some?
  {
    match ParseTaskName(name) {
      case Some(t) =>
        TaskRoundTrip(name, t);
        var q := QueueName(t.project, t.location, t.queue);
        QueueRoundTrip(QueueString(q), q);
      case None =>
    }
    match ParseQueueName(name) {
      case Some(q) =>
        QueueRoundTrip(name, q);
        var l := Location(q.project, q.location);
        LocationRoundTrip(LocationString(l), l);
      case None =>
    }
  }

  /** Extending a queue name by a task segment gives a task name of that queue. */
  lemma ChildOf(parent: string, id: string)
    requires ParseQueueName(parent).Some? && IsSegment(id)
    ensures ParseTaskName(parent + "/tasks/" + id).Some?
    ensures TaskQueueOf(parent + "/tasks/" + id) == parent && TaskID(parent + "/tasks/" + id) == id
  {
    var q := ParseQueueName(parent).value;
    QueueRoundTrip(parent, q);
    var t := TaskName(q.project, q.location, q.queue, id);
    assert TaskString(t) == parent + "/tasks/" + id;
    TaskRoundTrip(parent + "/tasks/" + id, t);
  }

  lemma {:induction false} DecimalIsTaskID(n: nat)
    requires n < 0x1_0000_0000_0000_0000
    ensures IsSegment(Decimal.FormatNat(n)) && IsTaskID(Decimal.FormatNat(n))
  {
    DecimalLength(n, 20);
    var s := Decimal.FormatNat(n);
    assert forall i | 0 <= i < |s| :: Decimal.IsDigit(s[i]);
    assert '/' !in s;
  }

  lemma {:induction false} DecimalLength(n: nat, k: nat)
    requires k >= 1 && (n < Decimal.Pow10(k) || (k == 20 && n < 0x1_0000_0000_0000_0000))
    ensures |Decimal.FormatNat(n)| <= k
  {
    if n >= 10 {
      if k == 20 {
        assert Decimal.Pow10(19) == 10_000_000_000_000_000_000 by { Pow10At19(); }
      }
      assert k > 1 by { assert Decimal.Pow10(1) == 10; }
      DecimalLength(n / 10, k - 1);
    }
  }

  lemma Pow10At19()
    ensures Decimal.Pow10(19) == 10_000_000_000_000_000_000
  {
    assert Decimal.Pow10(4) == 10_000;
    assert Decimal.Pow10(8) == 100_000_000;
    assert Decimal.Pow10(12) == 1_000_000_000_000;
    assert Decimal.Pow10(16) == 10_000_000_000_000_000;
  }

  /**
   Whatever resolveTaskName accepts or generates is a well-formed task name of the parent queue
   with a legal id, and a caller's own name is returned unchanged.
   */
  lemma ResolvedIsChild(parent: string, provided: string, clock: nat, seqNo: nat)
    requires ParseQueueName(parent).Some?
    ensures
      match ResolveTaskName(parent, provided, GeneratedID(clock, seqNo))
      case Err(_) => provided != ""
      case Ok(name) =>
        && ParseTaskName(name).Some? && TaskQueueOf(name) == parent && IsTaskID(TaskID(name))
        && (provided != "" ==> name == provided)
  {
    var id := GeneratedID(clock, seqNo);
    DecimalIsTaskID((clock + seqNo) % 0x1_0000_0000_0000_0000);
    ChildOf(parent, id);
  }

  // ---- exactly which names are accepted ----

  const UPPER: string := "ABCDEFGHIJKLMNOPQRSTUVWXYZ"
  const LOWER: string := "abcdefghijklmnopqrstuvwxyz"
  const DIGITS: string := "0123456789"

  /** Up to 500 letters, digits, underscores and hyphens. */
  predicate LegalTaskID(id: string) {
    1 <= |id| <= 500 && forall i | 0 <= i < |id| :: id[i] in UPPER + LOWER + DIGITS + "_-"
  }

  /** Up to 100 letters, digits and hyphens: no underscore. */
  predicate LegalQueueID(id: string) {
    1 <= |id| <= 100 && forall i | 0 <= i < |id| :: id[i] in UPPER + LOWER + DIGITS + "-"
  }

  lemma UpperIff(c: char)
    ensures c in UPPER <==> 'A' <= c <= 'Z'
  {
    if 'A' <= c <= 'Z' {
      assert UPPER[c as int - 'A' as int] == c;
    }
  }

  lemma LowerIff(c: char)
    ensures c in LOWER <==> 'a' <= c <= 'z'
  {
    if 'a' <= c <= 'z' {
      assert LOWER[c as int - 'a' as int] == c;
    }
  }

  lemma DigitIff(c: char)
    ensures c in DIGITS <==> '0' <= c <= '9'
  {
    if '0' <= c <= '9' {
      assert DIGITS[c as int - '0' as int] == c;
    }
  }

  lemma AlnumIff(c: char)
    ensures c in UPPER + LOWER + DIGITS <==> IsAlnum(c)
  {
    UpperIff(c);
    LowerIff(c);
    DigitIff(c);
  }

  lemma TaskCharIff(c: char)
    ensures c in UPPER + LOWER + DIGITS + "_-" <==> IsAlnum(c) || c == '_' || c == '-'
  {
    AlnumIff(c);
    assert c in "_-" <==> c == '_' || c == '-';
  }

  lemma QueueCharIff(c: char)
    ensures c in UPPER + LOWER + DIGITS + "-" <==> IsAlnum(c) || c == '-'
  {
    AlnumIff(c);
    assert c in "-" <==> c == '-';
  }

  lemma TaskIDIff(id: string)
    ensures IsTaskID(id) <==> LegalTaskID(id)
  {
    forall i | 0 <= i < |id| ensures id[i] in UPPER + LOWER + DIGITS + "_-" <==> IsAlnum(id[i]) || id[i] == '_' || id[i] == '-' {
      TaskCharIff(id[i]);
    }
  }

  lemma QueueIDIff(id: string)
    ensures IsQueueID(id) <==> LegalQueueID(id)
  {
    forall i | 0 <= i < |id| ensures id[i] in UPPER + LOWER + DIGITS + "-" <==> IsAlnum(id[i]) || id[i] == '-' {
      QueueCharIff(id[i]);
    }
  }

  /**
   Exactly which names CreateTask ends up with: a caller's name iff it is the parent's name,
   "/tasks/" and a legal id, unchanged; the parent's name with the generated id if none was given;
   and InvalidArgument otherwise.
   */
  lemma ResolveIff(parent: string, provided: string, generated: string, name: string)
    requires ParseQueueName(parent).Some?
    ensures ResolveTaskName(parent, provided, generated) == Ok(name) <==>
            if provided == "" then name == parent + "/tasks/" + generated
            else name == provided && exists id :: LegalTaskID(id) && provided == parent + "/tasks/" + id
    ensures ResolveTaskName(parent, provided, generated).Err? ==>
              ResolveTaskName(parent, provided, generated) == Err(InvalidArgument)
  {
    if provided != "" {
      NamesDecompose(provided);
      TaskIDIff(TaskID(provided));
      if id :| LegalTaskID(id) && provided == parent + "/tasks/" + id {
        LegalIsSegment(id);
        ChildOf(parent, id);
        TaskIDIff(id);
      }
    }
  }

  lemma LegalIsSegment(id: string)
    requires LegalTaskID(id) || LegalQueueID(id)
    ensures IsSegment(id)
  {
    TaskIDIff(id);
    QueueIDIff(id);
  }

  /**
   Two ids generated one after the other, the counter raised and the clock not turned back, differ
   as long as clock and counter have not moved on by 2^64 between them.
   */
  lemma GeneratedApart(clock: nat, seqNo: nat, later: nat, next: nat)
    requires clock <= later && seqNo < next && later + next - (clock + seqNo) < 0x1_0000_0000_0000_0000
    ensures GeneratedID(clock, seqNo) != GeneratedID(later, next)
  {
    var a, b := clock + seqNo, later + next;
    Decimal.DigitsRoundTrip(a % 0x1_0000_0000_0000_0000);
    Decimal.DigitsRoundTrip(b % 0x1_0000_0000_0000_0000);
  }
}
