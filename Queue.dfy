/**
 * The persistent work queue of the autonomous agent: a list of tasks kept
 * in a JSON file, with priority selection, the task lifecycle operations,
 * purging of finished tasks and a regenerated Markdown summary.
 *
 * The JSON file is modelled by the sequence of tasks it holds plus a flag
 * saying that the file cannot be read or parsed, in which case every read
 * sees an empty queue. The clock is a parameter: `stamp` is the
 * `%Y%m%d_%H%M%S` form used in task ids and `now` the ISO form used for the
 * timestamps.
 */
module Queue {
  import opened Optional
  import opened Text
  import Sorting

  // ---------------------------------------------------------------------
  // Priority and status
  // ---------------------------------------------------------------------

  datatype Priority = Low | Normal | High | Urgent

  /** `TaskPriority.X.value`. */
  function PriorityValue(p: Priority): (v: int)
    ensures 1 <= v <= 4
  {
    match p
    case Low => 1
    case Normal => 2
    case High => 3
    case Urgent => 4
  }

  /** `TaskPriority(v)`: None where Python raises ValueError. */
  function PriorityOf(v: int): (r: Option<Priority>)
    ensures r.Some? <==> 1 <= v <= 4
    ensures r.Some? ==> PriorityValue(r.value) == v
  {
    if v == 1 then Some(Low)
    else if v == 2 then Some(Normal)
    else if v == 3 then Some(High)
    else if v == 4 then Some(Urgent)
    else None
  }

  /** `TaskPriority(v).name.lower()`. */
  function PriorityLabel(p: Priority): string
  {
    match p
    case Low => "low"
    case Normal => "normal"
    case High => "high"
    case Urgent => "urgent"
  }

  datatype Status = Pending | InProgress | Completed | Failed

  /** `TaskStatus.X.value`. */
  function StatusValue(s: Status): string
  {
    match s
    case Pending => "pending"
    case InProgress => "in_progress"
    case Completed => "completed"
    case Failed => "failed"
  }

  /** `TaskStatus(v)`: None where Python raises ValueError. */
  function StatusOf(v: string): (r: Option<Status>)
    ensures r.Some? ==> StatusValue(r.value) == v
    ensures r.Some? <==> v in ["pending", "in_progress", "completed", "failed"]
  {
    if v == "pending" then Some(Pending)
    else if v == "in_progress" then Some(InProgress)
    else if v == "completed" then Some(Completed)
    else if v == "failed" then Some(Failed)
    else None
  }

  // ---------------------------------------------------------------------
  // Tasks and their stored form
  // ---------------------------------------------------------------------

  datatype Task = Task(
    id: string,
    description: string,
    priority: Priority,
    status: Status,
    createdAt: string,
    startedAt: Option<string>,
    completedAt: Option<string>,
    result: Option<string>,
    error: Option<string>,
    source: string)

  /** A task as a JSON object: priority as its number, status as its string. */
  datatype Record = Record(
    id: string,
    description: string,
    priority: int,
    status: string,
    createdAt: string,
    startedAt: Option<string>,
    completedAt: Option<string>,
    result: Option<string>,
    error: Option<string>,
    source: string)

  /** `_task_to_dict`. */
  function ToRecord(t: Task): (r: Record)
    ensures r.id == t.id && 1 <= r.priority <= 4 && StatusOf(r.status) == Some(t.status)
  {
    Record(t.id, t.description, PriorityValue(t.priority), StatusValue(t.status), t.createdAt,
           t.startedAt, t.completedAt, t.result, t.error, t.source)
  }

  /**
   * `_dict_to_task`: None where an enum conversion raises. Building the
   * `Task` runs `__post_init__`, which replaces an empty `created_at` by the
   * current time.
   */
  function FromRecord(d: Record, now: string): (r: Option<Task>)
    ensures r.Some? <==> 1 <= d.priority <= 4 && StatusOf(d.status).Some?
  {
    match (PriorityOf(d.priority), StatusOf(d.status))
    case (Some(p), Some(s)) =>
      Some(Task(d.id, d.description, p, s, if d.createdAt == "" then now else d.createdAt,
                d.startedAt, d.completedAt, d.result, d.error, d.source))
    case _ => None
  }

  /** Storing a task and reading it back gives the task (an empty creation time is re-stamped). */
  lemma TaskRoundTrip(t: Task, now: string)
    ensures FromRecord(ToRecord(t), now) == Some(if t.createdAt == "" then t.(createdAt := now) else t)
  {
  }

  /** A record that decodes, with a creation time, is exactly what encoding the task stores. */
  lemma RecordRoundTrip(d: Record, now: string)
    requires FromRecord(d, now).Some? && d.createdAt != ""
    ensures ToRecord(FromRecord(d, now).value) == d
  {
  }

  /** The id `add` gives the task appended to a store of `count` tasks. */
  function TaskId(stamp: string, count: nat): string
  {
    "task_" + stamp + "_" + NatToString(count)
  }

  /** The id ends in `_` and the decimal form of the count of tasks before the add. */
  lemma TaskIdSuffix(stamp: string, count: nat)
    ensures var id := TaskId(stamp, count);
            var k := |id| - |NatToString(count)|;
            0 < k && id[k - 1] == '_'
            && (forall i :: k <= i < |id| ==> IsDigit(id[i]))
            && DecimalValue(id[k..]) == count
  {
    var id := TaskId(stamp, count);
    var k := |id| - |NatToString(count)|;
    assert id[k..] == NatToString(count);
    DecimalRoundTrip(count);
  }

  // ---------------------------------------------------------------------
  // Reads: selection and filters
  // ---------------------------------------------------------------------

  /** The sort key `(-priority, created_at)` of `a` is strictly smaller than that of `b`. */
  predicate KeyLess(a: Task, b: Task)
  {
    PriorityValue(a.priority) > PriorityValue(b.priority)
    || (PriorityValue(a.priority) == PriorityValue(b.priority) && LexLess(a.createdAt, b.createdAt))
  }

  lemma KeyLessIrreflexive(a: Task)
    ensures !KeyLess(a, a)
  {
    LexLessIrreflexive(a.createdAt);
  }

  lemma KeyLessAsymmetric(a: Task, b: Task)
    requires KeyLess(a, b)
    ensures !KeyLess(b, a)
  {
    if PriorityValue(a.priority) == PriorityValue(b.priority) {
      LexLessAsymmetric(a.createdAt, b.createdAt);
    }
  }

  /** If `x` is before `z`, any `y` is after `x` or before `z`: keys are totally ordered. */
  lemma KeyLessCotransitive(x: Task, y: Task, z: Task)
    requires KeyLess(x, z)
    ensures KeyLess(x, y) || KeyLess(y, z)
  {
    var px, py, pz := PriorityValue(x.priority), PriorityValue(y.priority), PriorityValue(z.priority);
    if px == pz && py == px {
      LexLessTotal(x.createdAt, y.createdAt);
      if LexLess(y.createdAt, x.createdAt) {
        LexLessTransitive(y.createdAt, x.createdAt, z.createdAt);
      }
    }
  }

  /**
   * Where `get_next` finds its task: index `k` holds a pending task that no
   * pending task sorts before, and every earlier pending task sorts strictly
   * after it. That is the head of the stable sort of the pending tasks by
   * `(-priority, created_at)`.
   */
  ghost predicate IsNextAt(ts: seq<Task>, k: nat)
  {
    && k < |ts| && ts[k].status == Pending
    && (forall j :: 0 <= j < |ts| && ts[j].status == Pending ==> !KeyLess(ts[j], ts[k]))
    && (forall j :: 0 <= j < k && ts[j].status == Pending ==> KeyLess(ts[k], ts[j]))
  }

  /** The position of the task `get_next` returns, None when nothing is pending. */
  function BestIndex(ts: seq<Task>): (r: Option<nat>)
    ensures r.None? <==> forall i :: 0 <= i < |ts| ==> ts[i].status != Pending
    ensures r.Some? ==> r.value < |ts| && ts[r.value].status == Pending
    decreases |ts|
  {
    if ts == [] then None
    else
      var rest := BestIndex(ts[1..]);
      if rest.None? then
        (if ts[0].status == Pending then Some(0) else None)
      else if ts[0].status == Pending && !KeyLess(ts[rest.value + 1], ts[0]) then Some(0)
      else Some(rest.value + 1)
  }

  lemma {:induction false} BestIndexIsNext(ts: seq<Task>)
    requires BestIndex(ts).Some?
    ensures IsNextAt(ts, BestIndex(ts).value)
    decreases |ts|
  {
    var rest := BestIndex(ts[1..]);
    var k := BestIndex(ts).value;
    if rest.Some? {
      BestIndexIsNext(ts[1..]);
      var m := rest.value;
      assert ts[m + 1] == ts[1..][m];
      if k == 0 {
        forall j | 0 <= j < |ts| && ts[j].status == Pending
          ensures !KeyLess(ts[j], ts[0])
        {
          if j == 0 {
            KeyLessIrreflexive(ts[0]);
          } else {
            assert ts[j] == ts[1..][j - 1];
            if KeyLess(ts[j], ts[0]) {
              KeyLessCotransitive(ts[j], ts[m + 1], ts[0]);
            }
          }
        }
      } else {
        assert k == m + 1;
        forall j | 0 <= j < |ts| && ts[j].status == Pending
          ensures !KeyLess(ts[j], ts[k])
        {
          if j == 0 {
            KeyLessAsymmetric(ts[k], ts[0]);
          } else {
            assert ts[j] == ts[1..][j - 1];
          }
        }
        forall j | 0 <= j < k && ts[j].status == Pending
          ensures KeyLess(ts[k], ts[j])
        {
          if j > 0 { assert ts[j] == ts[1..][j - 1]; }
        }
      }
    } else {
      forall j | 0 < j < |ts|
        ensures ts[j].status != Pending
      {
        assert ts[j] == ts[1..][j - 1];
      }
      KeyLessIrreflexive(ts[0]);
    }
  }

  /** `get_next` on the loaded tasks. */
  function NextOf(ts: seq<Task>): (r: Option<Task>)
    ensures r.None? <==> forall i :: 0 <= i < |ts| ==> ts[i].status != Pending
    ensures r.Some? ==> exists k: nat :: IsNextAt(ts, k) && r.value == ts[k]
  {
    match BestIndex(ts)
    case None => None
    case Some(k) =>
      BestIndexIsNext(ts);
      Some(ts[k])
  }

  /** The tasks with status `st`, in stored order. */
  function WithStatus(ts: seq<Task>, st: Status): (r: seq<Task>)
    ensures |r| <= |ts|
  {
    if ts == [] then []
    else (if ts[0].status == st then [ts[0]] else []) + WithStatus(ts[1..], st)
  }

  lemma {:induction false} WithStatusAppend(a: seq<Task>, b: seq<Task>, st: Status)
    ensures WithStatus(a + b, st) == WithStatus(a, st) + WithStatus(b, st)
    decreases |a|
  {
    if a == [] {
      assert a + b == b;
    } else {
      var head := if a[0].status == st then [a[0]] else [];
      assert (a + b)[0] == a[0];
      assert (a + b)[1..] == a[1..] + b;
      assert WithStatus(a + b, st) == head + WithStatus(a[1..] + b, st);
      WithStatusAppend(a[1..], b, st);
      AppendAssoc(head, WithStatus(a[1..], st), WithStatus(b, st));
    }
  }

  lemma AppendAssoc<T>(x: seq<T>, y: seq<T>, z: seq<T>)
    ensures x + (y + z) == (x + y) + z
  {
  }

  lemma {:induction false} WithStatusMembers(ts: seq<Task>, st: Status)
    ensures forall t :: t in WithStatus(ts, st) <==> t in ts && t.status == st
    decreases |ts|
  {
    if ts != [] {
      WithStatusMembers(ts[1..], st);
      assert ts == [ts[0]] + ts[1..];
    }
  }

  /** Nothing carries the status: the filtered list is empty. */
  lemma {:induction false} WithStatusNone(ts: seq<Task>, st: Status)
    requires forall i :: 0 <= i < |ts| ==> ts[i].status != st
    ensures WithStatus(ts, st) == []
    decreases |ts|
  {
    if ts != [] {
      assert forall i :: 0 <= i < |ts[1..]| ==> ts[1..][i].status != st by {
        forall i | 0 <= i < |ts[1..]| ensures ts[1..][i].status != st { assert ts[1..][i] == ts[i + 1]; }
      }
      WithStatusNone(ts[1..], st);
    }
  }

  predicate IsLive(t: Task)
  {
    t.status == Pending || t.status == InProgress
  }

  /** The tasks `clear_completed` keeps: those neither completed nor failed, in stored order. */
  function Live(ts: seq<Task>): (r: seq<Task>)
    ensures |r| <= |ts|
  {
    if ts == [] then []
    else (if IsLive(ts[0]) then [ts[0]] else []) + Live(ts[1..])
  }

  /** Purging works segment by segment, so the kept tasks keep their relative order. */
  lemma {:induction false} LiveAppend(a: seq<Task>, b: seq<Task>)
    ensures Live(a + b) == Live(a) + Live(b)
    decreases |a|
  {
    if a == [] {
      assert a + b == b;
    } else {
      var head := if IsLive(a[0]) then [a[0]] else [];
      assert (a + b)[0] == a[0];
      assert (a + b)[1..] == a[1..] + b;
      assert Live(a + b) == head + Live(a[1..] + b);
      LiveAppend(a[1..], b);
      AppendAssoc(head, Live(a[1..]), Live(b));
    }
  }

  lemma {:induction false} LiveMembers(ts: seq<Task>)
    ensures forall t :: t in Live(ts) <==> t in ts && IsLive(t)
    decreases |ts|
  {
    if ts != [] {
      LiveMembers(ts[1..]);
      assert ts == [ts[0]] + ts[1..];
    }
  }

  /** A store without finished tasks is left exactly as it is. */
  lemma {:induction false} LiveKeepsLive(ts: seq<Task>)
    requires forall i :: 0 <= i < |ts| ==> IsLive(ts[i])
    ensures Live(ts) == ts
    decreases |ts|
  {
    if ts != [] {
      forall i | 0 <= i < |ts[1..]| ensures IsLive(ts[1..][i]) { assert ts[1..][i] == ts[i + 1]; }
      LiveKeepsLive(ts[1..]);
      assert ts == [ts[0]] + ts[1..];
    }
  }

  /** Purging twice is purging once. */
  lemma LiveIdempotent(ts: seq<Task>)
    ensures Live(Live(ts)) == Live(ts)
  {
    var l := Live(ts);
    LiveMembers(ts);
    forall i | 0 <= i < |l| ensures IsLive(l[i]) { assert l[i] in l; }
    LiveKeepsLive(l);
  }

  /** Purging drops exactly the completed and failed tasks: the counts add up. */
  lemma {:induction false} LiveCount(ts: seq<Task>)
    ensures |Live(ts)| + |WithStatus(ts, Completed)| + |WithStatus(ts, Failed)| == |ts|
    ensures |Live(ts)| == |WithStatus(ts, Pending)| + |WithStatus(ts, InProgress)|
    decreases |ts|
  {
    if ts != [] {
      LiveCount(ts[1..]);
    }
  }

  // ---------------------------------------------------------------------
  // Writes: rewriting the first task with an id
  // ---------------------------------------------------------------------

  /** The first position holding `id`, None when no task has it. */
  function FirstIndex(ts: seq<Task>, id: string): (r: Option<nat>)
    ensures r.None? <==> forall i :: 0 <= i < |ts| ==> ts[i].id != id
    ensures r.Some? ==> r.value < |ts| && ts[r.value].id == id
                        && forall j :: 0 <= j < r.value ==> ts[j].id != id
    decreases |ts|
  {
    if ts == [] then None
    else if ts[0].id == id then Some(0)
    else match FirstIndex(ts[1..], id)
      case None => None
      case Some(k) => Some(k + 1)
  }

  /** What `start`, `complete` and `fail` write into the task they find. */
  datatype Change = ToStarted(at: string) | ToCompleted(at: string, output: string) | ToFailed(at: string, message: string)

  /**
   * A rewrite touches only the status and the fields that record the
   * change; the task never comes out pending.
   */
  function Apply(t: Task, c: Change): (r: Task)
    ensures r.id == t.id && r.description == t.description && r.priority == t.priority
            && r.createdAt == t.createdAt && r.source == t.source
    ensures r.status != Pending
  {
    match c
    case ToStarted(at) => t.(status := InProgress, startedAt := Some(at))
    case ToCompleted(at, output) => t.(status := Completed, completedAt := Some(at), result := Some(output))
    case ToFailed(at, message) => t.(status := Failed, completedAt := Some(at), error := Some(message))
  }

  /** The store after the `for task in tasks: if task['id'] == task_id` loop. */
  function RewriteFirst(ts: seq<Task>, id: string, c: Change): seq<Task>
  {
    if ts == [] then []
    else if ts[0].id == id then [Apply(ts[0], c)] + ts[1..]
    else [ts[0]] + RewriteFirst(ts[1..], id, c)
  }

  /**
   * Only the first task carrying the id changes, whatever its status was;
   * the length and every other task stay; an unknown id changes nothing.
   */
  lemma {:induction false} RewriteFirstSpec(ts: seq<Task>, id: string, c: Change)
    ensures FirstIndex(ts, id).None? ==> RewriteFirst(ts, id, c) == ts
    ensures FirstIndex(ts, id).Some? ==>
              var k := FirstIndex(ts, id).value;
              RewriteFirst(ts, id, c) == ts[k := Apply(ts[k], c)]
    decreases |ts|
  {
    if ts != [] && ts[0].id != id {
      RewriteFirstSpec(ts[1..], id, c);
      assert ts == [ts[0]] + ts[1..];
    }
  }

  predicate UniqueIds(ts: seq<Task>)
  {
    forall i, j :: 0 <= i < j < |ts| ==> ts[i].id != ts[j].id
  }

  /** The status counts after one task at `k` is replaced by `u`. */
  lemma StatusCountAfterUpdate(ts: seq<Task>, k: nat, u: Task, st: Status)
    requires k < |ts|
    ensures |WithStatus(ts[k := u], st)|
            == |WithStatus(ts, st)| - (if ts[k].status == st then 1 else 0) + (if u.status == st then 1 else 0)
  {
    var a, b := ts[..k], ts[k + 1..];
    assert ts == a + [ts[k]] + b;
    assert ts[k := u] == a + [u] + b;
    WithStatusAppend(a + [ts[k]], b, st);
    WithStatusAppend(a, [ts[k]], st);
    WithStatusAppend(a + [u], b, st);
    WithStatusAppend(a, [u], st);
  }

  /**
   * Starting the task `get_next` chose takes it out of the pending tasks,
   * when ids are unique: the count of pending tasks drops by one.
   */
  lemma StartLeavesPending(ts: seq<Task>, now: string)
    requires UniqueIds(ts) && NextOf(ts).Some?
    ensures var t := NextOf(ts).value;
            |WithStatus(RewriteFirst(ts, t.id, ToStarted(now)), Pending)| == |WithStatus(ts, Pending)| - 1
  {
    var k := BestIndex(ts).value;
    var t := ts[k];
    assert NextOf(ts).value == t;
    assert ts[k].status == Pending;
    var f := FirstIndex(ts, t.id).value;
    assert f == k;
    RewriteFirstSpec(ts, t.id, ToStarted(now));
    StatusCountAfterUpdate(ts, k, Apply(ts[k], ToStarted(now)), Pending);
  }

  /** With unique ids, the first position holding the id of the task at `k` is `k`. */
  lemma UniqueFirstIndex(ts: seq<Task>, k: nat)
    requires UniqueIds(ts) && k < |ts|
    ensures FirstIndex(ts, ts[k].id) == Some(k)
  {
  }

  /** Rewriting the task at `k`, the first one with its id, leaves it the first one with that id. */
  lemma RewriteFirstAt(ts: seq<Task>, k: nat, c: Change)
    requires k < |ts| && FirstIndex(ts, ts[k].id) == Some(k)
    ensures RewriteFirst(ts, ts[k].id, c) == ts[k := Apply(ts[k], c)]
    ensures FirstIndex(ts[k := Apply(ts[k], c)], ts[k].id) == Some(k)
  {
    RewriteFirstSpec(ts, ts[k].id, c);
    var u := ts[k := Apply(ts[k], c)];
    assert u[k].id == ts[k].id;
    assert forall j :: 0 <= j < k ==> u[j] == ts[j];
  }

  /** Replacing a task by one with the same id keeps ids unique. */
  lemma UpdateKeepsIds(ts: seq<Task>, k: nat, u: Task)
    requires UniqueIds(ts) && k < |ts| && u.id == ts[k].id
    ensures UniqueIds(ts[k := u])
  {
    forall i | 0 <= i < |ts| ensures ts[k := u][i].id == ts[i].id { }
  }

  /** Rewriting never touches ids, so unique ids stay unique. */
  lemma RewriteKeepsIds(ts: seq<Task>, id: string, c: Change)
    ensures |RewriteFirst(ts, id, c)| == |ts|
    ensures forall i :: 0 <= i < |ts| ==> RewriteFirst(ts, id, c)[i].id == ts[i].id
    ensures UniqueIds(ts) ==> UniqueIds(RewriteFirst(ts, id, c))
  {
    RewriteFirstSpec(ts, id, c);
  }

  // ---------------------------------------------------------------------
  // The Markdown summary
  // ---------------------------------------------------------------------

  /** An optional field as an f-string prints it. */
  function Shown(o: Option<string>): string
  {
    match o
    case Some(s) => s
    case None => "None"
  }

  /** The check box `- [c]` that opens an item line. */
  function Mark(c: char): string
  {
    "- [" + [c] + "]"
  }

  /** What stands in the check box of each kind of item line. */
  function MarkChar(k: LineKind): char
  {
    match k
    case InProgressItem => ' '
    case PendingItem => ' '
    case CompletedItem => 'x'
    case FailedItem => '!'
  }

  function InProgressLine(t: Task): string
  {
    Mark(' ') + " **" + t.description + "** (started " + Shown(t.startedAt) + ")"
  }

  function PendingLine(t: Task): string
  {
    Mark(' ') + " " + t.description + " (" + PriorityLabel(t.priority) + ")"
  }

  function CompletedLine(t: Task): string
  {
    Mark('x') + " " + t.description
  }

  function FailedLine(t: Task): string
  {
    Mark('!') + " " + t.description + " - " + Shown(t.error)
  }

  datatype LineKind = InProgressItem | PendingItem | CompletedItem | FailedItem

  function ItemLine(k: LineKind, t: Task): (r: string)
    ensures |r| > 5 && r[..5] == Mark(MarkChar(k))
  {
    match k
    case InProgressItem => InProgressLine(t)
    case PendingItem => PendingLine(t)
    case CompletedItem => CompletedLine(t)
    case FailedItem => FailedLine(t)
  }

  function ItemLines(k: LineKind, ts: seq<Task>): (r: seq<string>)
    ensures |r| == |ts|
    ensures forall i :: 0 <= i < |ts| ==> r[i] == ItemLine(k, ts[i])
  {
    seq(|ts|, i requires 0 <= i < |ts| => ItemLine(k, ts[i]))
  }

  /** A heading, its items and a blank line; nothing at all when there are no items. */
  function Section(heading: string, items: seq<string>): seq<string>
  {
    if items == [] then [] else [heading] + items + [""]
  }

  /** The sort key of the queue's listings: the priority as a number. */
  function PriorityKey(t: Task): int
  {
    PriorityValue(t.priority)
  }

  /**
   * `sorted(pending, key=lambda x: -x['priority'])`: higher priorities first,
   * and tasks of equal priority keep their order, as Python's sort is stable.
   */
  function ByPriorityDesc(ts: seq<Task>): (r: seq<Task>)
    ensures multiset(r) == multiset(ts) && |r| == |ts|
    ensures forall i, j :: 0 <= i < j < |r| ==> PriorityValue(r[i].priority) >= PriorityValue(r[j].priority)
    ensures forall p :: Sorting.Keep(r, PriorityKey, p) == Sorting.Keep(ts, PriorityKey, p)
  {
    var le := (a: Task, b: Task) => PriorityKey(a) >= PriorityKey(b);
    Sorting.SortByKey(ts, le, PriorityKey);
    var r := Sorting.Sort(ts, le);
    assert |r| == |multiset(r)| == |multiset(ts)| == |ts|;
    r
  }

  function Header(now: string): seq<string>
  {
    ["# Work Queue", "", "Last updated: " + now, ""]
  }

  function InProgressSection(ts: seq<Task>): seq<string>
  {
    Section("## In Progress", ItemLines(InProgressItem, WithStatus(ts, InProgress)))
  }

  function PendingSection(ts: seq<Task>): seq<string>
  {
    Section("## Pending", ItemLines(PendingItem, ByPriorityDesc(WithStatus(ts, Pending))))
  }

  function CompletedSection(ts: seq<Task>): seq<string>
  {
    Section("## Completed", ItemLines(CompletedItem, TakeLast(WithStatus(ts, Completed), 5)))
  }

  function FailedSection(ts: seq<Task>): seq<string>
  {
    Section("## Failed", ItemLines(FailedItem, TakeLast(WithStatus(ts, Failed), 3)))
  }

  /** The lines `_update_markdown_view` writes, before they are joined with newlines. */
  function SummaryLines(ts: seq<Task>, now: string): seq<string>
  {
    Header(now) + InProgressSection(ts) + PendingSection(ts) + CompletedSection(ts) + FailedSection(ts)
  }

  function SummaryText(ts: seq<Task>, now: string): (r: string)
    ensures forall k :: 0 <= k < |SummaryLines(ts, now)| ==> Contains(r, SummaryLines(ts, now)[k])
  {
    JoinContainsAll(SummaryLines(ts, now), "\n");
    Join(SummaryLines(ts, now), "\n")
  }

  /** The Markdown mirror as last written: the tasks it shows and the time in its header. */
  datatype Mirror = Mirror(tasks: seq<Task>, at: string)
  {
    /** The text of the mirror file. */
    function Text(): string
    {
      SummaryText(tasks, at)
    }
  }

  /** How many lines start with `p`. */
  function CountPrefixed(lines: seq<string>, p: string): nat
  {
    if lines == [] then 0
    else (if StartsWith(lines[0], p) then 1 else 0) + CountPrefixed(lines[1..], p)
  }

  lemma {:induction false} CountPrefixedAppend(a: seq<string>, b: seq<string>, p: string)
    ensures CountPrefixed(a + b, p) == CountPrefixed(a, p) + CountPrefixed(b, p)
    decreases |a|
  {
    if a == [] {
      assert a + b == b;
    } else {
      CountPrefixedAppend(a[1..], b, p);
      assert (a + b)[0] == a[0];
      assert (a + b)[1..] == a[1..] + b;
    }
  }

  lemma {:induction false} CountItemLines(k: LineKind, ts: seq<Task>, c: char)
    ensures CountPrefixed(ItemLines(k, ts), Mark(c)) == if c == MarkChar(k) then |ts| else 0
    decreases |ts|
  {
    if ts != [] {
      var lines := ItemLines(k, ts);
      assert lines[1..] == ItemLines(k, ts[1..]);
      CountItemLines(k, ts[1..], c);
      var l := lines[0];
      assert l[3] == MarkChar(k);
      assert Mark(c)[3] == c;
      assert StartsWith(l, Mark(c)) <==> l[..5] == Mark(c);
    }
  }

  lemma CountSingle(l: string, p: string)
    ensures CountPrefixed([l], p) == if StartsWith(l, p) then 1 else 0
  {
    assert [l][1..] == [];
  }

  lemma CountSection(heading: string, k: LineKind, ts: seq<Task>, c: char)
    requires heading != [] && heading[0] == '#'
    ensures CountPrefixed(Section(heading, ItemLines(k, ts)), Mark(c)) == if c == MarkChar(k) then |ts| else 0
  {
    CountItemLines(k, ts, c);
    var items := ItemLines(k, ts);
    var p := Mark(c);
    if items != [] {
      CountPrefixedAppend([heading] + items, [""], p);
      CountPrefixedAppend([heading], items, p);
      CountSingle(heading, p);
      CountSingle("", p);
      assert p[0] == '-';
    }
  }

  lemma {:induction false} CountNoDash(lines: seq<string>, p: string)
    requires p != [] && p[0] == '-'
    requires forall i :: 0 <= i < |lines| ==> lines[i] == [] || lines[i][0] != '-'
    ensures CountPrefixed(lines, p) == 0
    decreases |lines|
  {
    if lines != [] {
      CountNoDash(lines[1..], p);
    }
  }

  lemma SummaryDecompose(ts: seq<Task>, now: string, p: string)
    ensures CountPrefixed(SummaryLines(ts, now), p)
            == CountPrefixed(Header(now), p) + CountPrefixed(InProgressSection(ts), p)
               + CountPrefixed(PendingSection(ts), p) + CountPrefixed(CompletedSection(ts), p)
               + CountPrefixed(FailedSection(ts), p)
  {
    var h, s1, s2, s3, s4 := Header(now), InProgressSection(ts), PendingSection(ts), CompletedSection(ts), FailedSection(ts);
    CountPrefixedAppend(h + s1 + s2 + s3, s4, p);
    CountPrefixedAppend(h + s1 + s2, s3, p);
    CountPrefixedAppend(h + s1, s2, p);
    CountPrefixedAppend(h, s1, p);
  }

  lemma HeaderCount(now: string, c: char)
    ensures CountPrefixed(Header(now), Mark(c)) == 0
  {
    var h := Header(now);
    assert h[2][0] == 'L';
    assert Mark(c)[0] == '-';
    CountNoDash(h, Mark(c));
  }

  lemma PendingSectionCount(ts: seq<Task>, c: char)
    ensures CountPrefixed(PendingSection(ts), Mark(c)) == if c == ' ' then |WithStatus(ts, Pending)| else 0
  {
    var pend := WithStatus(ts, Pending);
    CountSection("## Pending", PendingItem, ByPriorityDesc(pend), c);
  }

  /** The count of lines opening with each check box, section by section. */
  lemma SummaryCountsBySection(ts: seq<Task>, now: string, c: char)
    ensures CountPrefixed(SummaryLines(ts, now), Mark(c))
            == (if c == ' ' then |WithStatus(ts, InProgress)| + |WithStatus(ts, Pending)| else 0)
               + (if c == 'x' then |TakeLast(WithStatus(ts, Completed), 5)| else 0)
               + (if c == '!' then |TakeLast(WithStatus(ts, Failed), 3)| else 0)
  {
    SummaryDecompose(ts, now, Mark(c));
    HeaderCount(now, c);
    PendingSectionCount(ts, c);
    CountSection("## In Progress", InProgressItem, WithStatus(ts, InProgress), c);
    CountSection("## Completed", CompletedItem, TakeLast(WithStatus(ts, Completed), 5), c);
    CountSection("## Failed", FailedItem, TakeLast(WithStatus(ts, Failed), 3), c);
  }

  /**
   * The summary lists every in-progress and every pending task under an
   * unchecked box, the last five completed tasks under `[x]` and the last
   * three failed tasks under `[!]`.
   */
  lemma SummaryCounts(ts: seq<Task>, now: string)
    ensures CountPrefixed(SummaryLines(ts, now), Mark(' '))
            == |WithStatus(ts, InProgress)| + |WithStatus(ts, Pending)|
    ensures CountPrefixed(SummaryLines(ts, now), Mark('x'))
            == if |WithStatus(ts, Completed)| < 5 then |WithStatus(ts, Completed)| else 5
    ensures CountPrefixed(SummaryLines(ts, now), Mark('!'))
            == if |WithStatus(ts, Failed)| < 3 then |WithStatus(ts, Failed)| else 3
  {
    SummaryCountsBySection(ts, now, ' ');
    SummaryCountsBySection(ts, now, 'x');
    SummaryCountsBySection(ts, now, '!');
  }

  lemma ItemLinesHas(k: LineKind, ts: seq<Task>, t: Task)
    requires t in ts
    ensures ItemLine(k, t) in ItemLines(k, ts)
  {
    var i :| 0 <= i < |ts| && ts[i] == t;
    assert ItemLines(k, ts)[i] == ItemLine(k, t);
  }

  lemma SectionHas(heading: string, items: seq<string>, x: string)
    requires x in items
    ensures x in Section(heading, items)
  {
    assert Section(heading, items) == [heading] + items + [""];
  }

  lemma PendingSectionLists(ts: seq<Task>, t: Task)
    requires t in ts && t.status == Pending
    ensures PendingLine(t) in PendingSection(ts)
  {
    var pend := WithStatus(ts, Pending);
    WithStatusMembers(ts, Pending);
    var sorted := ByPriorityDesc(pend);
    assert t in multiset(sorted) by { assert t in multiset(pend); }
    ItemLinesHas(PendingItem, sorted, t);
    SectionHas("## Pending", ItemLines(PendingItem, sorted), PendingLine(t));
  }

  lemma MiddleHas<T>(a: seq<T>, b: seq<T>, c: seq<T>, x: T)
    requires x in b
    ensures x in a + b + c
  {
    var i :| 0 <= i < |b| && b[i] == x;
    assert (a + b + c)[|a| + i] == x;
  }

  /** Every pending task has its line in the summary, whatever its place in the priority order. */
  lemma SummaryListsPending(ts: seq<Task>, now: string, t: Task)
    requires t in ts && t.status == Pending
    ensures PendingLine(t) in SummaryLines(ts, now)
  {
    PendingSectionLists(ts, t);
    MiddleHas(Header(now) + InProgressSection(ts), PendingSection(ts), CompletedSection(ts) + FailedSection(ts), PendingLine(t));
    assert SummaryLines(ts, now)
           == (Header(now) + InProgressSection(ts)) + PendingSection(ts) + (CompletedSection(ts) + FailedSection(ts));
  }

  // ---------------------------------------------------------------------
  // The queue object
  // ---------------------------------------------------------------------

  /** What the queue file holds when the queue object is created. */
  datatype StoreFile = Missing | Readable(tasks: seq<Task>) | Unparsable

  class WorkQueue {
    /** The tasks in the JSON file, when it can be read. */
    var stored: seq<Task>
    /** The file cannot be read or parsed. */
    var corrupt: bool
    /** The Markdown mirror, once this queue has written it. */
    var view: Option<Mirror>

    /** `_load`: an unreadable or corrupt file reads as the empty list. */
    function Load(): seq<Task>
      reads this`stored, this`corrupt
    {
      if corrupt then [] else stored
    }

    /** `WorkQueue(path)`: a missing file is created holding `[]`. */
    constructor (file: StoreFile)
      ensures Load() == (if file.Readable? then file.tasks else [])
      ensures corrupt <==> file.Unparsable?
      ensures view == None
    {
      view := None;
      match file
      case Missing =>
        stored, corrupt := [], false;
      case Readable(ts) =>
        stored, corrupt := ts, false;
      case Unparsable =>
        stored, corrupt := [], true;
    }

    /** `_update_markdown_view`. */
    method UpdateMarkdownView(now: string)
      modifies this`view
      ensures view == Some(Mirror(Load(), now))
    {
      view := Some(Mirror(Load(), now));
    }

    /** `add`: append one new pending task; its id ends in the count of tasks before it. */
    method Add(description: string, priority: Priority, source: string, stamp: string, now: string)
      returns (task: Task)
      modifies this
      ensures task == Task(TaskId(stamp, |old(Load())|), description, priority, Pending, now,
                           None, None, None, None, source)
      ensures !corrupt && stored == old(Load()) + [task]
      ensures view == Some(Mirror(stored, now))
    {
      var tasks := Load();
      var id := TaskId(stamp, |tasks|);
      task := Task(id, description, priority, Pending, now, None, None, None, None, source);
      stored, corrupt := tasks + [task], false;
      UpdateMarkdownView(now);
    }

    /** `get_next`: the pending task the stable sort by `(-priority, created_at)` puts first. */
    method GetNext() returns (r: Option<Task>)
      ensures r == NextOf(Load())
      ensures r.None? <==> forall i :: 0 <= i < |Load()| ==> Load()[i].status != Pending
      ensures r.Some? ==> exists k: nat :: IsNextAt(Load(), k) && r.value == Load()[k]
    {
      r := NextOf(Load());
    }

    /** `list_pending`: the pending tasks in stored order. */
    method ListPending() returns (r: seq<Task>)
      ensures r == WithStatus(Load(), Pending)
      ensures forall t :: t in r <==> t in Load() && t.status == Pending
    {
      r := WithStatus(Load(), Pending);
      WithStatusMembers(Load(), Pending);
    }

    /** `list_all`: every stored task, nothing when the file is corrupt. */
    method ListAll() returns (r: seq<Task>)
      ensures corrupt ==> r == []
      ensures !corrupt ==> r == stored
    {
      r := Load();
    }

    /** The loop shared by `start`, `complete` and `fail`. */
    method RewriteTask(id: string, c: Change, now: string) returns (ok: bool)
      modifies this
      ensures ok <==> FirstIndex(old(Load()), id).Some?
      ensures !ok ==> stored == old(stored) && corrupt == old(corrupt) && view == old(view)
      ensures ok ==> !corrupt && stored == RewriteFirst(old(Load()), id, c)
                     && view == Some(Mirror(stored, now))
    {
      var tasks := Load();
      var i := 0;
      while i < |tasks|
        invariant 0 <= i <= |tasks|
        invariant forall j :: 0 <= j < i ==> tasks[j].id != id
        invariant stored == old(stored) && corrupt == old(corrupt) && view == old(view)
      {
        if tasks[i].id == id {
          RewriteFirstSpec(tasks, id, c);
          stored, corrupt := tasks[i := Apply(tasks[i], c)], false;
          UpdateMarkdownView(now);
          return true;
        }
        i := i + 1;
      }
      ok := false;
    }

    /** `start`: the first task with the id becomes in progress, whatever its status was. */
    method Start(id: string, now: string) returns (ok: bool)
      modifies this
      ensures ok <==> FirstIndex(old(Load()), id).Some?
      ensures !ok ==> stored == old(stored) && corrupt == old(corrupt) && view == old(view)
      ensures ok ==> !corrupt && stored == RewriteFirst(old(Load()), id, ToStarted(now))
                     && view == Some(Mirror(stored, now))
    {
      ok := RewriteTask(id, ToStarted(now), now);
    }

    /** `complete`: the first task with the id becomes completed with the result. */
    method Complete(id: string, result: string, now: string) returns (ok: bool)
      modifies this
      ensures ok <==> FirstIndex(old(Load()), id).Some?
      ensures !ok ==> stored == old(stored) && corrupt == old(corrupt) && view == old(view)
      ensures ok ==> !corrupt && stored == RewriteFirst(old(Load()), id, ToCompleted(now, result))
                     && view == Some(Mirror(stored, now))
    {
      ok := RewriteTask(id, ToCompleted(now, result), now);
    }

    /** `fail`: the first task with the id becomes failed with the error. */
    method Fail(id: string, error: string, now: string) returns (ok: bool)
      modifies this
      ensures ok <==> FirstIndex(old(Load()), id).Some?
      ensures !ok ==> stored == old(stored) && corrupt == old(corrupt) && view == old(view)
      ensures ok ==> !corrupt && stored == RewriteFirst(old(Load()), id, ToFailed(now, error))
                     && view == Some(Mirror(stored, now))
    {
      ok := RewriteTask(id, ToFailed(now, error), now);
    }

    /** `clear_completed`: keep the pending and in-progress tasks, in order. */
    method ClearCompleted(now: string)
      modifies this
      ensures !corrupt && stored == Live(old(Load()))
      ensures view == Some(Mirror(stored, now))
    {
      stored, corrupt := Live(Load()), false;
      UpdateMarkdownView(now);
    }
  }

  /**
   * Ids are not unique. Within one second, `add` gives the first task the
   * id ending in 0 and the second the id ending in 1; after the first is
   * completed and purged, one task is left, so the next `add` reuses the id
   * ending in 1.
   */
  lemma DuplicateIdAfterPurge(a: Task, b: Task, stamp: string, now: string, result: string)
    requires a.id == TaskId(stamp, 0) && b.id == TaskId(stamp, 1) && b.status == Pending
    ensures var afterPurge := Live(RewriteFirst([a, b], a.id, ToCompleted(now, result)));
            afterPurge == [b] && TaskId(stamp, |afterPurge|) == b.id
  {
    var done := Apply(a, ToCompleted(now, result));
    assert RewriteFirst([a, b], a.id, ToCompleted(now, result)) == [done] + [b];
    LiveAppend([done], [b]);
  }
}
