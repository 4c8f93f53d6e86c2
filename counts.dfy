/** The read-only quantities the screen derives from `tasks` on every render:
    the completed count, the three period buckets and each bucket's completed
    count. */
module Counts {
  import opened Seqs
  import opened Tasks

  const Daily: string := "daily"
  const Weekly: string := "weekly"
  const Monthly: string := "monthly"

  /** The bucket keys, in the order the screen shows them. */
  const PeriodKeys: seq<string> := [Daily, Weekly, Monthly]

  predicate KnownPeriod(p: string)
  {
    p == Daily || p == Weekly || p == Monthly
  }

  /** `tasks.filter(task => task.completed)` */
  function CompletedTasks(ts: seq<Task>): (r: seq<Task>)
    ensures Subseq(r, ts)
    ensures forall t :: multiset(r)[t] == if t.completed then multiset(ts)[t] else 0
  {
    Filter(ts, (t: Task) => t.completed)
  }

  /** `completedCount`: never more than the number of tasks. */
  function CompletedCount(ts: seq<Task>): (n: nat)
    ensures n <= |ts|
  {
    |CompletedTasks(ts)|
  }

  /** `periodTasks`: the tasks whose period is `key`, in list order. */
  function PeriodTasks(ts: seq<Task>, key: string): (r: seq<Task>)
    ensures Subseq(r, ts)
    ensures forall t :: multiset(r)[t] == if t.period == key then multiset(ts)[t] else 0
  {
    Filter(ts, (t: Task) => t.period == key)
  }

  /** The tasks that fall in none of the three buckets. */
  function UnknownPeriodTasks(ts: seq<Task>): (r: seq<Task>)
    ensures forall t :: multiset(r)[t] == if KnownPeriod(t.period) then 0 else multiset(ts)[t]
  {
    Filter(ts, (t: Task) => !KnownPeriod(t.period))
  }

  /** `periodCompleted`: the completed tasks of one bucket, never more than
      the bucket holds. */
  function PeriodCompleted(ts: seq<Task>, key: string): (n: nat)
    ensures n <= |PeriodTasks(ts, key)|
  {
    CompletedCount(PeriodTasks(ts, key))
  }

  /** A task of the list with a known period is shown in its own bucket and
      in no other one. */
  lemma ExactlyOneBucket(ts: seq<Task>, t: Task, key: string)
    requires t in ts && KnownPeriod(t.period) && key in PeriodKeys
    ensures t in PeriodTasks(ts, key) <==> key == t.period
  {
    FilterMembers(ts, (t: Task) => t.period == key, t);
  }

  /** Splitting the list into the three buckets and the rest loses, gains and
      duplicates nothing. */
  lemma PartitionMultiset(ts: seq<Task>)
    ensures multiset(PeriodTasks(ts, Daily)) + multiset(PeriodTasks(ts, Weekly))
            + multiset(PeriodTasks(ts, Monthly)) + multiset(UnknownPeriodTasks(ts))
            == multiset(ts)
  {
    var d, w, m, u := PeriodTasks(ts, Daily), PeriodTasks(ts, Weekly),
                      PeriodTasks(ts, Monthly), UnknownPeriodTasks(ts);
    forall t ensures (multiset(d) + multiset(w) + multiset(m) + multiset(u))[t] == multiset(ts)[t] {
    }
  }

  /** The three buckets together hold at most every task, and exactly every
      task when all periods are daily, weekly or monthly. */
  lemma PartitionSizes(ts: seq<Task>)
    ensures |PeriodTasks(ts, Daily)| + |PeriodTasks(ts, Weekly)| + |PeriodTasks(ts, Monthly)| <= |ts|
    ensures (forall i :: 0 <= i < |ts| ==> KnownPeriod(ts[i].period)) ==>
              |PeriodTasks(ts, Daily)| + |PeriodTasks(ts, Weekly)| + |PeriodTasks(ts, Monthly)| == |ts|
  {
    PartitionMultiset(ts);
    var d, w, m, u := PeriodTasks(ts, Daily), PeriodTasks(ts, Weekly),
                      PeriodTasks(ts, Monthly), UnknownPeriodTasks(ts);
    assert |multiset(d) + multiset(w) + multiset(m) + multiset(u)| == |ts|;
    if forall i :: 0 <= i < |ts| ==> KnownPeriod(ts[i].period) {
      FilterDropsAll(ts, (t: Task) => !KnownPeriod(t.period));
    }
  }

  /** A rename changes neither the completed count nor the size of any
      bucket. */
  lemma RenameKeepsCounts(ts: seq<Task>, id: Id, title: string, key: string)
    ensures CompletedCount(Rename(ts, id, title)) == CompletedCount(ts)
    ensures |PeriodTasks(Rename(ts, id, title), key)| == |PeriodTasks(ts, key)|
  {
    var r := Rename(ts, id, title);
    FilterLengthAgrees(r, ts, (t: Task) => t.completed);
    FilterLengthAgrees(r, ts, (t: Task) => t.period == key);
  }

  /** A toggle leaves the size of every bucket as it was. */
  lemma ToggleKeepsBuckets(ts: seq<Task>, id: Id, key: string)
    ensures |PeriodTasks(Toggle(ts, id), key)| == |PeriodTasks(ts, key)|
  {
    FilterLengthAgrees(Toggle(ts, id), ts, (t: Task) => t.period == key);
  }
}
