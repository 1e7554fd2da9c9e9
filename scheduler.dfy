/**
 * Scheduled device actions (waterbot/scheduler.py).
 *
 * `DeviceScheduler` keeps a list of live job records, one per scheduled
 * (device, action, time) entry it registered with the `schedule` library. The list is
 * rebuilt from the schedule store by `setup_schedules`, grows by one record on
 * `add_schedule` and loses the first matching record on `remove_schedule`; the
 * library's own job list (`JobTable`) always holds exactly the handles of the records,
 * in the same order (`Synced`). `Consistent` says that the live records match the
 * store: every entry whose time `strptime` and the library accept has exactly as many
 * records as the store lists it. The store is the same object the scheduler reads its
 * table from, so the scheduler holds a reference to it.
 */
module Scheduler {
  import opened Wrappers
  import opened Text
  import opened Config
  import opened Handler
  import opened JobLibrary

  // ---------------------------------------------------------------- strptime("%H:%M")

  /** The `%H` pattern of `strptime`: `2[0-3]`, `[0-1]\d` or a single digit. */
  predicate HourOk(h: string) {
    || (|h| == 1 && IsDigit(h[0]))
    || (|h| == 2 && ((h[0] == '2' && '0' <= h[1] <= '3') || ((h[0] == '0' || h[0] == '1') && IsDigit(h[1]))))
  }

  /** The `%M` pattern of `strptime`: `[0-5]\d` or a single digit. */
  predicate MinuteOk(m: string) {
    || (|m| == 1 && IsDigit(m[0]))
    || (|m| == 2 && '0' <= m[0] <= '5' && IsDigit(m[1]))
  }

  /** `datetime.strptime(s, "%H:%M")` succeeds: an hour, a colon and a minute make up
      the whole string, with nothing left over. */
  predicate ParsesAsClock(s: string) {
    || (|s| >= 2 && s[1] == ':' && HourOk(s[..1]) && MinuteOk(s[2..]))
    || (|s| >= 3 && s[2] == ':' && HourOk(s[..2]) && MinuteOk(s[3..]))
  }

  /** The hour pattern accepts one or two digits exactly when their value is at most 23. */
  lemma HourRange(h: string)
    requires 1 <= |h| <= 2 && AllDigits(h)
    ensures HourOk(h) <==> DigitsValue(h) <= 23
  {
    if |h| == 2 {
      assert h[..1][..0] == [] && h[..1][0] == h[0];
      assert DigitsValue(h[..1]) == DigitValue(h[0]);
    } else {
      assert DigitsValue(h) == DigitValue(h[0]);
    }
  }

  /** The minute pattern accepts one or two digits exactly when their value is at most 59. */
  lemma MinuteRange(m: string)
    requires 1 <= |m| <= 2 && AllDigits(m)
    ensures MinuteOk(m) <==> DigitsValue(m) <= 59
  {
    if |m| == 2 {
      assert m[..1][..0] == [] && m[..1][0] == m[0];
      assert DigitsValue(m[..1]) == DigitValue(m[0]);
    } else {
      assert DigitsValue(m) == DigitValue(m[0]);
    }
  }

  /** On a time the store accepts, `strptime` succeeds exactly when there is no trailing
      newline, the hour is at most 23 and the minute at most 59. */
  lemma StoreTimeParses(t: string)
    requires TimeFormatOk(t)
    ensures ParsesAsClock(t) <==> |t| == 5 && DigitsValue(t[..2]) <= 23 && DigitsValue(t[3..5]) <= 59
  {
    HourRange(t[..2]);
    MinuteRange(t[3..5]);
    assert !IsDigit(':');
    if |t| == 5 {
      assert t[3..] == t[3..5];
    }
  }

  /** The store keeps times that the scheduler cannot parse, so they never get a job. */
  lemma StoreOutrunsClock()
    ensures TimeFormatOk("25:00") && !ParsesAsClock("25:00")
    ensures TimeFormatOk("07:30\n") && !ParsesAsClock("07:30\n")
    ensures TimeFormatOk("07:30") && ParsesAsClock("07:30") && ParsesAsClock("7:30")
  {
    StoreTimeParses("25:00");
    assert "25:00"[..2] == "25" && DigitsValue("25") == 25;
    StoreTimeParses("07:30\n");
    assert "07:30"[..2] == "07" && "07:30"[3..] == "30";
    assert "7:30"[..1] == "7" && "7:30"[2..] == "30";
  }

  // ---------------------------------------------------------------- job records

  /** An entry of `scheduled_jobs`: `{device, action, time, job}`. */
  datatype JobRecord = JobRecord(device: string, action: string, time: string, job: Handle)

  type Triple = (string, string, string)

  function Key(r: JobRecord): Triple {
    (r.device, r.action, r.time)
  }

  function Keys(rs: seq<JobRecord>): seq<Triple> {
    seq(|rs|, k requires 0 <= k < |rs| => Key(rs[k]))
  }

  function Handles(rs: seq<JobRecord>): seq<Handle> {
    seq(|rs|, k requires 0 <= k < |rs| => rs[k].job)
  }

  /** The job the scheduler registers for a time: `strptime` accepts it and
      `every().day.at(time)` does not raise. */
  predicate Ok(accepts: string -> bool, t: string) {
    ParsesAsClock(t) && accepts(t)
  }

  /** How many live records the entry `x` should have for the table `tb`: as many as the
      store lists it, when its time can be scheduled; none otherwise. */
  function Expected(accepts: string -> bool, tb: Table, x: Triple): nat {
    if Ok(accepts, x.2) then multiset(TimesOf(tb, x.0, x.1))[x.2] else 0
  }

  /** The triples that scheduling each of `times` for `device`/`action` registers. */
  function Scheduled(accepts: string -> bool, device: string, action: string, times: seq<string>): multiset<Triple> {
    if times == [] then multiset{}
    else
      var last := times[|times| - 1];
      Scheduled(accepts, device, action, times[..|times| - 1])
      + (if Ok(accepts, last) then multiset{(device, action, last)} else multiset{})
  }

  lemma ScheduledSnoc(accepts: string -> bool, device: string, action: string, times: seq<string>, i: nat)
    requires i < |times|
    ensures Scheduled(accepts, device, action, times[..i + 1])
            == Scheduled(accepts, device, action, times[..i])
               + (if Ok(accepts, times[i]) then multiset{(device, action, times[i])} else multiset{})
  {
    assert times[..i + 1][..i] == times[..i];
  }

  /** Scheduling a list of times registers each schedulable time once per occurrence. */
  lemma {:induction false} ScheduledCount(accepts: string -> bool, device: string, action: string, times: seq<string>, x: Triple)
    ensures Scheduled(accepts, device, action, times)[x]
            == if x.0 == device && x.1 == action && Ok(accepts, x.2) then multiset(times)[x.2] else 0
  {
    if times != [] {
      var init := times[..|times| - 1];
      var last := times[|times| - 1];
      assert times == init + [last];
      ScheduledCount(accepts, device, action, init, x);
    }
  }

  /** A change confined to the list under `device`/`action` leaves what every other
      entry asks for as it was. */
  lemma ExpectedElsewhere(accepts: string -> bool, before: Table, after: Table, device: string, action: string, x: Triple)
    requires Unaffected(before, after, device, action)
    requires x.0 != device || x.1 != action
    ensures Expected(accepts, after, x) == Expected(accepts, before, x)
  {
    if x.0 != device {
      assert TimesOf(after, x.0, x.1) == TimesOf(before, x.0, x.1);
    } else {
      assert Slot(after, device, x.1) == Slot(before, device, x.1);
    }
  }

  /** A new entry in the table asks for one more live record, for that entry only. */
  lemma ExpectedAfterAdd(accepts: string -> bool, tb: Table, device: string, action: string, time: string, x: Triple)
    requires !Has(tb, device, action, time)
    ensures Expected(accepts, AddEntry(tb, device, action, time), x)
            == Expected(accepts, tb, x) + (if x == (device, action, time) && Ok(accepts, time) then 1 else 0)
  {
    var r := AddEntry(tb, device, action, time);
    AddEntryFacts(tb, device, action, time);
    AddEntryFrame(tb, device, action, time);
    if x.0 == device && x.1 == action {
      assert TimesOf(r, device, action) == r[device][action];
    } else {
      ExpectedElsewhere(accepts, tb, r, device, action, x);
    }
  }

  /** Removing a listed entry asks for one record fewer for that entry only; removing an
      unlisted one changes nothing. */
  lemma ExpectedAfterRemove(accepts: string -> bool, tb: Table, device: string, action: string, time: string, x: Triple)
    ensures Expected(accepts, RemoveEntry(tb, device, action, time), x)
            == Expected(accepts, tb, x) - (if x == (device, action, time) && Ok(accepts, time) && Has(tb, device, action, time) then 1 else 0)
  {
    var r := RemoveEntry(tb, device, action, time);
    RemoveEntryFacts(tb, device, action, time);
    RemoveEntryFrame(tb, device, action, time);
    if x.0 == device && x.1 == action {
      if x.2 == time && Has(tb, device, action, time) {
        assert time in multiset(TimesOf(tb, device, action));
      }
    } else {
      ExpectedElsewhere(accepts, tb, r, device, action, x);
    }
  }

  /** Adding a new entry and registering its job (when its time can be scheduled)
      keeps the live records in step with the table. */
  lemma ConsistentAfterAdd(accepts: string -> bool, tb: Table, device: string, action: string, time: string,
                           before: multiset<Triple>, after: multiset<Triple>)
    requires forall x: Triple :: before[x] == Expected(accepts, tb, x)
    requires !Has(tb, device, action, time)
    requires after == before + (if Ok(accepts, time) then multiset{(device, action, time)} else multiset{})
    ensures forall x: Triple :: after[x] == Expected(accepts, AddEntry(tb, device, action, time), x)
  {
    forall x: Triple ensures after[x] == Expected(accepts, AddEntry(tb, device, action, time), x) {
      ExpectedAfterAdd(accepts, tb, device, action, time, x);
    }
  }

  /** Dropping one record of the entry (if there is one) and removing the entry from the
      table keeps the live records in step with the table. */
  lemma ConsistentAfterRemove(accepts: string -> bool, tb: Table, device: string, action: string, time: string,
                              before: multiset<Triple>, after: multiset<Triple>)
    requires forall x: Triple :: before[x] == Expected(accepts, tb, x)
    requires after == before - multiset{(device, action, time)}
    ensures forall x: Triple :: after[x] == Expected(accepts, RemoveEntry(tb, device, action, time), x)
  {
    if Ok(accepts, time) && Has(tb, device, action, time) {
      assert time in multiset(TimesOf(tb, device, action));
    }
    forall x: Triple ensures after[x] == Expected(accepts, RemoveEntry(tb, device, action, time), x) {
      ExpectedAfterRemove(accepts, tb, device, action, time, x);
    }
  }

  /** The position of the first record for `key`, as the loop of `remove_schedule` finds it. */
  function FirstMatch(rs: seq<JobRecord>, key: Triple): (r: Option<nat>)
    ensures r.Some? ==> r.value < |rs| && Key(rs[r.value]) == key
    ensures r.Some? ==> forall k :: 0 <= k < r.value ==> Key(rs[k]) != key
    ensures r.None? ==> forall k :: 0 <= k < |rs| ==> Key(rs[k]) != key
  {
    if rs == [] then None
    else if Key(rs[0]) == key then Some(0)
    else
      match FirstMatch(rs[1..], key)
      case None => None
      case Some(j) => Some(j + 1)
  }

  /** Dropping position `i` takes exactly its triple out of the records' triples. */
  lemma KeysRemoveAt(rs: seq<JobRecord>, i: nat)
    requires i < |rs|
    ensures Keys(rs[..i] + rs[i + 1..]) == Keys(rs)[..i] + Keys(rs)[i + 1..]
    ensures multiset(Keys(rs[..i] + rs[i + 1..])) == multiset(Keys(rs)) - multiset{Key(rs[i])}
  {
    var ks := Keys(rs);
    assert ks == ks[..i] + [ks[i]] + ks[i + 1..];
  }

  lemma HandlesRemoveAt(rs: seq<JobRecord>, i: nat)
    requires i < |rs|
    ensures Handles(rs[..i] + rs[i + 1..]) == Handles(rs)[..i] + Handles(rs)[i + 1..]
  {
  }

  lemma RecordsSnoc(rs: seq<JobRecord>, r: JobRecord)
    ensures Handles(rs + [r]) == Handles(rs) + [r.job]
    ensures Keys(rs + [r]) == Keys(rs) + [Key(r)]
  {
  }

  /** `list.remove(x)` removes position `i` when no earlier element equals `x`. */
  lemma {:induction false} RemoveFirstAt(s: seq<Handle>, i: nat)
    requires i < |s| && forall k :: 0 <= k < i ==> s[k] != s[i]
    ensures RemoveFirst(s, s[i]) == s[..i] + s[i + 1..]
  {
    if i > 0 {
      var x := s[i];
      var t := s[1..];
      assert t[i - 1] == x;
      forall k | 0 <= k < i - 1 ensures t[k] != x {
        assert t[k] == s[k + 1];
      }
      RemoveFirstAt(t, i - 1);
      assert s[0] != x;
      ConsAround(s, i);
    }
  }

  lemma ConsAround(s: seq<Handle>, i: nat)
    requires 0 < i < |s|
    ensures [s[0]] + (s[1..][..i - 1] + s[1..][i..]) == s[..i] + s[i + 1..]
  {
  }

  // ---------------------------------------------------------------- get_next_runs

  /** An entry of `get_next_runs()`: `next_run` is a point in time, not its text. */
  datatype Upcoming = Upcoming(device: string, action: string, time: string, nextRun: int)

  /** The records whose job has a `next_run`, in list order. */
  function Pending(rs: seq<JobRecord>): seq<Upcoming> {
    if rs == [] then []
    else
      var last := rs[|rs| - 1];
      Pending(rs[..|rs| - 1])
      + match last.job.nextRun
        case None => []
        case Some(at) => [Upcoming(last.device, last.action, last.time, at)]
  }

  /** Every record with a `next_run` gives an entry, and every entry comes from one. */
  lemma {:induction false} PendingMembership(rs: seq<JobRecord>)
    ensures forall r :: r in rs && r.job.nextRun.Some? ==>
              Upcoming(r.device, r.action, r.time, r.job.nextRun.value) in Pending(rs)
    ensures forall u :: u in Pending(rs) ==>
              exists r :: r in rs && r.job.nextRun == Some(u.nextRun) && Key(r) == (u.device, u.action, u.time)
  {
    if rs != [] {
      var init := rs[..|rs| - 1];
      var last := rs[|rs| - 1];
      assert rs == init + [last];
      PendingMembership(init);
      forall u | u in Pending(rs)
        ensures exists r :: r in rs && r.job.nextRun == Some(u.nextRun) && Key(r) == (u.device, u.action, u.time)
      {
        if u in Pending(init) {
          var r :| r in init && r.job.nextRun == Some(u.nextRun) && Key(r) == (u.device, u.action, u.time);
          assert r in rs;
        } else {
          assert last in rs;
        }
      }
    }
  }

  predicate ByNextRun(s: seq<Upcoming>) {
    forall i, j :: 0 <= i < j < |s| ==> s[i].nextRun <= s[j].nextRun
  }

  predicate AllBy(s: seq<Upcoming>, bound: int) {
    forall i :: 0 <= i < |s| ==> s[i].nextRun <= bound
  }

  /** The entries of `s` whose `next_run` is `at`, in order. */
  function WithNextRun(s: seq<Upcoming>, at: int): seq<Upcoming> {
    if s == [] then []
    else
      var last := s[|s| - 1];
      WithNextRun(s[..|s| - 1], at) + (if last.nextRun == at then [last] else [])
  }

  /** One step of a stable insertion sort: `x` goes after every entry not later than it. */
  function InsertByNextRun(s: seq<Upcoming>, x: Upcoming): seq<Upcoming> {
    if s == [] || s[|s| - 1].nextRun <= x.nextRun then s + [x]
    else InsertByNextRun(s[..|s| - 1], x) + [s[|s| - 1]]
  }

  /** `list.sort(key=...)` on the next-run times, which Python guarantees stable. */
  function SortByNextRun(s: seq<Upcoming>): seq<Upcoming> {
    if s == [] then []
    else InsertByNextRun(SortByNextRun(s[..|s| - 1]), s[|s| - 1])
  }

  lemma {:induction false} InsertAllBy(s: seq<Upcoming>, x: Upcoming, bound: int)
    requires AllBy(s, bound) && x.nextRun <= bound
    ensures AllBy(InsertByNextRun(s, x), bound)
  {
    if s != [] && s[|s| - 1].nextRun > x.nextRun {
      InsertAllBy(s[..|s| - 1], x, bound);
    }
  }

  lemma {:induction false} InsertSorted(s: seq<Upcoming>, x: Upcoming)
    requires ByNextRun(s)
    ensures ByNextRun(InsertByNextRun(s, x))
  {
    if s != [] && s[|s| - 1].nextRun > x.nextRun {
      var init := s[..|s| - 1];
      var last := s[|s| - 1];
      InsertSorted(init, x);
      InsertAllBy(init, x, last.nextRun);
    }
  }

  lemma WithNextRunSnoc(s: seq<Upcoming>, x: Upcoming, at: int)
    ensures WithNextRun(s + [x], at) == WithNextRun(s, at) + (if x.nextRun == at then [x] else [])
  {
    assert (s + [x])[..|s|] == s;
  }

  lemma {:induction false} InsertKeepsOrder(s: seq<Upcoming>, x: Upcoming, at: int)
    ensures WithNextRun(InsertByNextRun(s, x), at) == WithNextRun(s, at) + (if x.nextRun == at then [x] else [])
  {
    if s == [] || s[|s| - 1].nextRun <= x.nextRun {
      WithNextRunSnoc(s, x, at);
    } else {
      var init := s[..|s| - 1];
      var last := s[|s| - 1];
      assert s == init + [last];
      InsertKeepsOrder(init, x, at);
      WithNextRunSnoc(InsertByNextRun(init, x), last, at);
    }
  }

  lemma {:induction false} InsertKeepsEntries(s: seq<Upcoming>, x: Upcoming)
    ensures multiset(InsertByNextRun(s, x)) == multiset(s) + multiset{x}
  {
    if s != [] && s[|s| - 1].nextRun > x.nextRun {
      var init := s[..|s| - 1];
      assert s == init + [s[|s| - 1]];
      InsertKeepsEntries(init, x);
    }
  }

  /** The sorted list is ascending by next run. */
  lemma {:induction false} SortByNextRunSorted(s: seq<Upcoming>)
    ensures ByNextRun(SortByNextRun(s))
  {
    if s != [] {
      SortByNextRunSorted(s[..|s| - 1]);
      InsertSorted(SortByNextRun(s[..|s| - 1]), s[|s| - 1]);
    }
  }

  /** The sort is a stable permutation: the entries sharing a next run keep their order,
      and nothing is lost or added. */
  lemma {:induction false} SortByNextRunStable(s: seq<Upcoming>, at: int)
    ensures WithNextRun(SortByNextRun(s), at) == WithNextRun(s, at)
    ensures multiset(SortByNextRun(s)) == multiset(s)
  {
    if s != [] {
      var init := s[..|s| - 1];
      var last := s[|s| - 1];
      assert s == init + [last];
      SortByNextRunStable(init, at);
      InsertKeepsOrder(SortByNextRun(init), last, at);
      InsertKeepsEntries(SortByNextRun(init), last);
    }
  }

  // ---------------------------------------------------------------- the scheduler

  /** `DeviceScheduler`, with the global objects it uses passed in: the schedule store, the
      device controller, the `schedule` library's job list and `ENABLE_SCHEDULING`.
      `notifications` records each `_send_discord_notification(device, action, success)`. */
  class DeviceScheduler {
    const store: ScheduleStore
    const controller: DeviceController
    const lib: JobTable
    const enabled: bool
    var running: bool
    var jobs: seq<JobRecord>
    var notifications: seq<(string, string, bool)>

    /** The library lists exactly the handles of the live records, in order. */
    ghost predicate Synced()
      reads this, lib
    {
      lib.Valid() && lib.jobs == Handles(jobs)
    }

    /** Every store entry that can be scheduled has as many live records as the store lists
        it, and no other triple has a record. */
    ghost predicate Consistent()
      reads this, store
    {
      forall x: Triple :: multiset(Keys(jobs))[x] == Expected(lib.accepts, store.table, x)
    }

    constructor (store: ScheduleStore, controller: DeviceController, lib: JobTable, enabled: bool)
      ensures this.store == store && this.controller == controller && this.lib == lib && this.enabled == enabled
      ensures !running && jobs == [] && notifications == []
      ensures lib.Valid() && lib.jobs == [] ==> Synced()
    {
      this.store := store;
      this.controller := controller;
      this.lib := lib;
      this.enabled := enabled;
      running := false;
      jobs := [];
      notifications := [];
    }

    /** `_schedule_device_action`: a record is added only when `strptime` accepts the
        time and the library registers a job for it. */
    method ScheduleDeviceAction(device: string, action: string, time: string)
      requires Synced()
      modifies this, lib
      ensures Synced()
      ensures Ok(lib.accepts, time) ==>
                jobs == old(jobs) + [JobRecord(device, action, time, Handle(old(lib.nextId), lib.nextRunAt(time)))]
      ensures !Ok(lib.accepts, time) ==> jobs == old(jobs) && lib.jobs == old(lib.jobs)
      ensures multiset(Keys(jobs))
              == multiset(Keys(old(jobs))) + (if Ok(lib.accepts, time) then multiset{(device, action, time)} else multiset{})
      ensures running == old(running) && notifications == old(notifications)
    {
      if !ParsesAsClock(time) {
        return;
      }
      var h := lib.Register(time);
      if h.None? {
        return;
      }
      var r := JobRecord(device, action, time, h.value);
      RecordsSnoc(jobs, r);
      jobs := jobs + [r];
    }

    /** The innermost loop of `setup_schedules`, over the times of one action. */
    method ScheduleTimes(device: string, action: string, times: seq<string>)
      requires Synced()
      modifies this, lib
      ensures Synced()
      ensures multiset(Keys(jobs)) == multiset(Keys(old(jobs))) + Scheduled(lib.accepts, device, action, times)
      ensures running == old(running) && notifications == old(notifications)
    {
      var i := 0;
      while i < |times|
        invariant 0 <= i <= |times|
        invariant Synced()
        invariant multiset(Keys(jobs)) == multiset(Keys(old(jobs))) + Scheduled(lib.accepts, device, action, times[..i])
        invariant running == old(running) && notifications == old(notifications)
      {
        ScheduledSnoc(lib.accepts, device, action, times, i);
        ScheduleDeviceAction(device, action, times[i]);
        i := i + 1;
      }
      assert times[..i] == times;
    }

    /** The middle loop of `setup_schedules`, over the actions of one device. */
    method ScheduleDevice(device: string)
      requires Synced() && device in store.table
      modifies this, lib
      ensures Synced()
      ensures forall x: Triple :: multiset(Keys(jobs))[x]
                == multiset(Keys(old(jobs)))[x] + (if x.0 == device then Expected(lib.accepts, store.table, x) else 0)
      ensures running == old(running) && notifications == old(notifications)
    {
      var actions := store.table[device].Keys;
      ghost var done: set<string> := {};
      while actions != {}
        invariant Synced()
        invariant actions + done == store.table[device].Keys && actions !! done
        invariant forall x: Triple :: multiset(Keys(jobs))[x]
                    == multiset(Keys(old(jobs)))[x] + (if x.0 == device && x.1 in done then Expected(lib.accepts, store.table, x) else 0)
        invariant running == old(running) && notifications == old(notifications)
        decreases actions
      {
        var action :| action in actions;
        var times := store.table[device][action];
        ScheduleTimes(device, action, times);
        forall x: Triple ensures Scheduled(lib.accepts, device, action, times)[x]
                                 == if x.0 == device && x.1 == action then Expected(lib.accepts, store.table, x) else 0
        {
          ScheduledCount(lib.accepts, device, action, times, x);
        }
        actions := actions - {action};
        done := done + {action};
      }
      forall x: Triple | x.0 == device && x.1 !in done ensures Expected(lib.accepts, store.table, x) == 0 {
        assert TimesOf(store.table, device, x.1) == [];
      }
    }

    /** `setup_schedules()`: clear everything, then (when scheduling is enabled) schedule
        every (device, action, time) entry of the store. */
    method SetupSchedules()
      modifies this, lib
      ensures Synced()
      ensures !enabled ==> jobs == [] && lib.jobs == []
      ensures enabled ==> Consistent()
      ensures running == old(running) && notifications == old(notifications)
    {
      lib.Clear();
      jobs := [];
      if !enabled {
        return;
      }
      var devices := store.table.Keys;
      ghost var done: set<string> := {};
      while devices != {}
        invariant Synced()
        invariant devices + done == store.table.Keys && devices !! done
        invariant forall x: Triple :: multiset(Keys(jobs))[x] == if x.0 in done then Expected(lib.accepts, store.table, x) else 0
        invariant running == old(running) && notifications == old(notifications)
        decreases devices
      {
        var device :| device in devices;
        ScheduleDevice(device);
        devices := devices - {device};
        done := done + {device};
      }
      forall x: Triple | x.0 !in done ensures Expected(lib.accepts, store.table, x) == 0 {
        assert TimesOf(store.table, x.0, x.1) == [];
      }
    }

    /** `add_schedule(device, action, time)`: the store first; a live job only when the
        store reports success, which includes a time it already listed. */
    method AddSchedule(device: string, action: string, time: string, saveOk: bool) returns (ok: bool)
      requires Synced()
      modifies this, lib, store
      ensures Synced()
      ensures ok <==> Admissible(store.registry, device, action, time) && (Has(old(store.table), device, action, time) || saveOk)
      ensures store.table == if Admissible(store.registry, device, action, time) then AddEntry(old(store.table), device, action, time) else old(store.table)
      ensures jobs == old(jobs) + if ok && Ok(lib.accepts, time)
                                  then [JobRecord(device, action, time, Handle(old(lib.nextId), lib.nextRunAt(time)))]
                                  else []
      ensures multiset(Keys(jobs))
              == multiset(Keys(old(jobs))) + (if ok && Ok(lib.accepts, time) then multiset{(device, action, time)} else multiset{})
      ensures running == old(running) && notifications == old(notifications)
      ensures old(Consistent()) && (!Admissible(store.registry, device, action, time) || (!Has(old(store.table), device, action, time) && saveOk))
              ==> Consistent()
      ensures (old(Consistent()) && Admissible(store.registry, device, action, time) && Has(old(store.table), device, action, time)
               && Ok(lib.accepts, time)) ==> !Consistent()
      ensures (old(Consistent()) && Admissible(store.registry, device, action, time) && !Has(old(store.table), device, action, time)
               && !saveOk && Ok(lib.accepts, time)) ==> !Consistent()
    {
      ghost var before := store.table;
      ghost var keys := multiset(Keys(jobs));
      ghost var wasConsistent := Consistent();
      ok := store.AddSchedule(device, action, time, saveOk);
      if ok {
        ScheduleDeviceAction(device, action, time);
      }
      ghost var x: Triple := (device, action, time);
      if wasConsistent && Admissible(store.registry, device, action, time) && !Has(before, device, action, time) {
        if saveOk {
          ConsistentAfterAdd(lib.accepts, before, device, action, time, keys, multiset(Keys(jobs)));
        } else if Ok(lib.accepts, time) {
          ExpectedAfterAdd(lib.accepts, before, device, action, time, x);
          assert multiset(Keys(jobs))[x] != Expected(lib.accepts, store.table, x);
        }
      }
      if wasConsistent && Admissible(store.registry, device, action, time) && Has(before, device, action, time) && Ok(lib.accepts, time) {
        assert multiset(Keys(jobs))[x] == keys[x] + 1;
      }
    }

    /** Find the first record for the triple, as the loop over `scheduled_jobs[:]` does. */
    method FindJob(device: string, action: string, time: string) returns (idx: Option<nat>)
      ensures idx == FirstMatch(jobs, (device, action, time))
    {
      var i := 0;
      while i < |jobs|
        invariant 0 <= i <= |jobs|
        invariant forall k :: 0 <= k < i ==> Key(jobs[k]) != (device, action, time)
      {
        var r := jobs[i];
        if r.device == device && r.action == action && r.time == time {
          return Some(i);
        }
        i := i + 1;
      }
      return None;
    }

    /** `remove_schedule(device, action, time)`: cancel and drop the first matching live
        job, if any, then return what the store's removal returns. */
    method RemoveSchedule(device: string, action: string, time: string, saveOk: bool) returns (ok: bool)
      requires Synced()
      modifies this, lib, store
      ensures Synced()
      ensures var m := FirstMatch(old(jobs), (device, action, time));
              jobs == if m.None? then old(jobs) else old(jobs)[..m.value] + old(jobs)[m.value + 1..]
      ensures ok <==> Has(old(store.table), device, action, time) && saveOk
      ensures store.table == RemoveEntry(old(store.table), device, action, time)
      ensures multiset(Keys(jobs)) == multiset(Keys(old(jobs))) - multiset{(device, action, time)}
      ensures running == old(running) && notifications == old(notifications)
      ensures old(Consistent()) ==> Consistent()
    {
      ghost var before := store.table;
      ghost var keys := multiset(Keys(jobs));
      ghost var wasConsistent := Consistent();
      var idx := FindJob(device, action, time);
      if idx.Some? {
        KeysRemoveAt(jobs, idx.value);
        DropRecord(idx.value);
      } else {
        assert (device, action, time) !in multiset(Keys(jobs));
      }
      ok := store.RemoveSchedule(device, action, time, saveOk);
      if wasConsistent {
        ConsistentAfterRemove(lib.accepts, before, device, action, time, keys, multiset(Keys(jobs)));
      }
    }

    /** `schedule.cancel_job(job)` and `scheduled_jobs.remove(job_info)` for the record at
        position `i`: the library drops that handle and the list drops that record. */
    method DropRecord(i: nat)
      requires Synced() && i < |jobs|
      modifies this, lib
      ensures Synced() && jobs == old(jobs)[..i] + old(jobs)[i + 1..]
      ensures running == old(running) && notifications == old(notifications)
    {
      var hs := Handles(jobs);
      assert hs[i] == jobs[i].job;
      forall k | 0 <= k < i ensures hs[k] != hs[i] {
        assert hs[k].id < hs[i].id;
      }
      RemoveFirstAt(hs, i);
      lib.Cancel(jobs[i].job);
      HandlesRemoveAt(jobs, i);
      jobs := jobs[..i] + jobs[i + 1..];
    }

    /** The callback of a scheduled job: `turn_on(device)` or `turn_off(device)` without a
        timeout, then a notification carrying the result. Any other action only logs. When
        the switch raises the exception leaves the callback before the notification. */
    method RunJob(device: string, action: string) returns (outcome: Option<Outcome>)
      requires controller.Valid()
      modifies this, controller, controller.gpio.Obj()
      ensures controller.Valid()
      ensures jobs == old(jobs) && running == old(running)
      ensures action != "on" && action != "off" ==>
                outcome == None && notifications == old(notifications) && controller.State() == old(controller.State())
      ensures action == "on" || action == "off" ==>
                var r := Switch(controller.registry, old(controller.State()), device, action == "on", None);
                && outcome == Some(r.1) && controller.State() == r.0
                && notifications == old(notifications) + (if r.1.Returned? then [(device, action, r.1.ok)] else [])
    {
      var result: Outcome;
      if action == "on" {
        result := controller.TurnOn(device, None);
      } else if action == "off" {
        result := controller.TurnOff(device, None);
      } else {
        return None;
      }
      if result.Returned? {
        notifications := notifications + [(device, action, result.ok)];
      }
      return Some(result);
    }

    /** `get_next_runs()`: the records with a next run, sorted by it. */
    method GetNextRuns() returns (runs: seq<Upcoming>)
      ensures runs == SortByNextRun(Pending(jobs))
      ensures ByNextRun(runs) && multiset(runs) == multiset(Pending(jobs))
      ensures forall at :: WithNextRun(runs, at) == WithNextRun(Pending(jobs), at)
    {
      var pending: seq<Upcoming> := [];
      var i := 0;
      while i < |jobs|
        invariant 0 <= i <= |jobs|
        invariant pending == Pending(jobs[..i])
      {
        var r := jobs[i];
        if r.job.nextRun.Some? {
          pending := pending + [Upcoming(r.device, r.action, r.time, r.job.nextRun.value)];
        }
        assert jobs[..i + 1][..i] == jobs[..i];
        i := i + 1;
      }
      assert jobs[..i] == jobs;
      runs := SortByNextRun(pending);
      SortByNextRunSorted(pending);
      forall at ensures WithNextRun(runs, at) == WithNextRun(pending, at) {
        SortByNextRunStable(pending, at);
      }
      SortByNextRunStable(pending, 0);
    }

    /** `start()`: a no-op when already running or when scheduling is disabled; otherwise
        rebuild the jobs from the store and mark the scheduler running. */
    method Start()
      modifies this, lib
      ensures old(running) || !enabled ==>
                running == old(running) && jobs == old(jobs) && lib.jobs == old(lib.jobs)
      ensures !old(running) && enabled ==> running && Synced() && Consistent()
      ensures notifications == old(notifications)
    {
      if running {
        return;
      }
      if !enabled {
        return;
      }
      SetupSchedules();
      running := true;
    }

    /** `stop()`: a no-op when not running (the records stay); otherwise clear the running
        flag, the library's job list and the records. */
    method Stop()
      modifies this, lib
      ensures !old(running) ==> !running && jobs == old(jobs) && lib.jobs == old(lib.jobs)
      ensures old(running) ==> !running && jobs == [] && lib.jobs == [] && Synced()
      ensures notifications == old(notifications)
    {
      if !running {
        return;
      }
      running := false;
      lib.Clear();
      jobs := [];
    }
  }
}
