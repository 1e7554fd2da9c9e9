/**
 * Configuration (waterbot/config.py): the device registry built from `DEVICE_*`
 * environment entries, the start-up validation, and the schedule store, a table
 * device -> action -> list of "HH:MM" strings that `add_schedule` and
 * `remove_schedule` edit in place and hand to `save_schedules` after each change.
 */
module Config {
  import opened Wrappers
  import opened Text

  // ---------------------------------------------------------------- Python int()

  /** ASCII digits with single underscores between them: what `int()` accepts after the sign. */
  predicate Grouped(s: string) {
    && |s| > 0 && IsDigit(s[0]) && IsDigit(s[|s| - 1])
    && (forall i :: 0 <= i < |s| ==> IsDigit(s[i]) || s[i] == '_')
    && (forall i :: 0 <= i < |s| - 1 && s[i] == '_' ==> s[i + 1] != '_')
  }

  function DropUnderscores(s: string): (r: string)
    ensures (forall i :: 0 <= i < |s| ==> IsDigit(s[i]) || s[i] == '_') ==> AllDigits(r)
    ensures AllDigits(s) ==> r == s
  {
    if s == [] then []
    else (if s[0] == '_' then [] else [s[0]]) + DropUnderscores(s[1..])
  }

  /** Python's `int(value)` for a string in base 10; None is the ValueError. Surrounding
      whitespace (of the narrower class `IsIntSpace`), one sign and single underscores
      between digits are accepted. */
  function ParseInt(value: string): (r: Option<int>)
    ensures r.Some? ==>
              var t := StripBy(IsIntSpace, value);
              && t != [] && (IsDigit(t[0]) || t[0] == '+' || t[0] == '-') && IsDigit(t[|t| - 1])
              && (r.value < 0 ==> t[0] == '-')
  {
    ParseStripped(StripBy(IsIntSpace, value))
  }

  function ParseStripped(t: string): Option<int> {
    if |t| > 0 && (t[0] == '+' || t[0] == '-') then
      if Grouped(t[1..]) then
        var n: int := DigitsValue(DropUnderscores(t[1..]));
        Some(if t[0] == '-' then -n else n)
      else None
    else if Grouped(t) then Some(DigitsValue(DropUnderscores(t)))
    else None
  }

  /** Python's `str(n)`. */
  function IntToString(n: int): string {
    if n < 0 then "-" + NatToString(-n) else NatToString(n)
  }

  lemma GroupedDigits(s: string)
    requires s != [] && AllDigits(s)
    ensures Grouped(s) && DropUnderscores(s) == s
  {
  }

  lemma ParseStrippedRoundTrip(n: int)
    ensures ParseStripped(IntToString(n)) == Some(n)
  {
    var m: nat := if n < 0 then -n else n;
    NatToStringRoundTrip(m);
    var digits := NatToString(m);
    GroupedDigits(digits);
    if n < 0 {
      var s := IntToString(n);
      assert s[0] == '-' && s[1..] == digits;
    } else {
      assert IsDigit(digits[0]);
    }
  }

  /** `int()` reads back what `str()` wrote, whatever whitespace surrounds it. */
  lemma ParseIntRoundTrip(n: int, pre: string, post: string)
    requires AllIn(IsIntSpace, pre) && AllIn(IsIntSpace, post)
    ensures ParseInt(pre + IntToString(n) + post) == Some(n)
  {
    var m: nat := if n < 0 then -n else n;
    NatToStringRoundTrip(m);
    var digits := NatToString(m);
    var s := IntToString(n);
    assert s[|s| - 1] == digits[|digits| - 1];
    assert IsDigit(digits[0]);
    assert !IsIntSpace(s[0]) && !IsIntSpace(s[|s| - 1]);
    StripUnpadded(s);
    StripPadding(IsIntSpace, pre, s, post);
    ParseStrippedRoundTrip(n);
  }

  lemma StripUnpadded(s: string)
    requires s != [] && !IsIntSpace(s[0]) && !IsIntSpace(s[|s| - 1])
    ensures StripBy(IsIntSpace, s) == s
  {
  }

  /** `str(n)` starts with a digit or a minus sign and ends with a digit. */
  lemma IntToStringEnds(n: int)
    ensures var s := IntToString(n); s != [] && IsDigit(s[|s| - 1]) && (IsDigit(s[0]) || s[0] == '-')
  {
    var m: nat := if n < 0 then -n else n;
    NatToStringRoundTrip(m);
    var digits := NatToString(m);
    assert IsDigit(digits[0]) && IsDigit(digits[|digits| - 1]);
  }

  /** A first character that is neither skipped, a sign nor a digit makes `int()` fail. */
  lemma ParseIntRefuses(c: char, s: string)
    requires !IsIntSpace(c) && !IsDigit(c) && c != '+' && c != '-'
    requires s != [] && !IsIntSpace(s[|s| - 1])
    ensures ParseInt([c] + s) == None
  {
    var t := [c] + s;
    assert t[0] == c && t[|t| - 1] == s[|s| - 1];
    StripUnpadded(t);
  }

  /** `int()` skips a no-break space like any ASCII blank, but fails on the separator
      U+001C, although `str.isspace()` counts both as whitespace. */
  lemma IntSpaceOnly(n: int)
    ensures ParseInt("\U{A0}" + IntToString(n)) == Some(n)
    ensures ParseInt("\U{1C}" + IntToString(n)) == None
  {
    ParseIntRoundTrip(n, "\U{A0}", []);
    assert "\U{A0}" + IntToString(n) + [] == "\U{A0}" + IntToString(n);
    IntToStringEnds(n);
    ParseIntRefuses('\U{1C}', IntToString(n));
  }

  // ---------------------------------------------------------------- device registry

  /** `key.startswith("DEVICE_")`. */
  predicate IsDeviceKey(key: string) {
    |key| >= 7 && key[..7] == "DEVICE_"
  }

  /** `key[7:].lower()`. */
  function DeviceName(key: string): string
    requires IsDeviceKey(key)
  {
    Lower(key[7..])
  }

  /** `DEVICE_TO_PIN`: names to pins, with the dict's insertion order kept in `order`. */
  datatype Registry = Registry(pins: map<string, int>, order: seq<string>) {
    /** Every name appears in `order` once, and `order` lists exactly the names in `pins`. */
    ghost predicate WellFormed() {
      && (forall i, j :: 0 <= i < j < |order| ==> order[i] != order[j])
      && (forall n :: n in pins <==> n in order)
    }
  }

  /** Whether the environment entry `kv` registers (or re-registers) `name`. */
  predicate Contributes(kv: (string, string), name: string) {
    IsDeviceKey(kv.0) && DeviceName(kv.0) == name && ParseInt(kv.1).Some?
  }

  /** One turn of the loop over `os.environ.items()`. */
  function Enter(reg: Registry, kv: (string, string)): Registry {
    if IsDeviceKey(kv.0) && ParseInt(kv.1).Some? then
      var name := DeviceName(kv.0);
      Registry(reg.pins[name := ParseInt(kv.1).value],
               if name in reg.pins then reg.order else reg.order + [name])
    else reg
  }

  /** The registry the loop builds from the environment entries `env`, in order. */
  function RegistryOf(env: seq<(string, string)>): (r: Registry)
    ensures r.WellFormed()
  {
    if env == [] then Registry(map[], [])
    else Enter(RegistryOf(env[..|env| - 1]), env[|env| - 1])
  }

  /** The loop at module load that fills `DEVICE_TO_PIN`; unparsable values are skipped. */
  method LoadDeviceRegistry(env: seq<(string, string)>) returns (reg: Registry)
    ensures reg == RegistryOf(env)
  {
    var pins: map<string, int> := map[];
    var order: seq<string> := [];
    var i := 0;
    while i < |env|
      invariant 0 <= i <= |env|
      invariant Registry(pins, order) == RegistryOf(env[..i])
    {
      var (key, value) := env[i];
      if |key| >= 7 && key[..7] == "DEVICE_" {
        var deviceName := Lower(key[7..]);
        var pin := ParseInt(value);
        if pin.Some? {
          if deviceName !in pins {
            order := order + [deviceName];
          }
          pins := pins[deviceName := pin.value];
        }
      }
      assert env[..i + 1][..i] == env[..i];
      i := i + 1;
    }
    assert env[..|env|] == env;
    reg := Registry(pins, order);
  }

  /** A name is registered exactly when some `DEVICE_` entry lowercases to it and its value parses. */
  lemma RegistryMembership(env: seq<(string, string)>, name: string)
    ensures name in RegistryOf(env).pins <==> exists i :: 0 <= i < |env| && Contributes(env[i], name)
  {
    if name in RegistryOf(env).pins {
      var i := RegistrySource(env, name);
    }
    if exists i :: 0 <= i < |env| && Contributes(env[i], name) {
      var i :| 0 <= i < |env| && Contributes(env[i], name);
      RegistryContains(env, name, i);
    }
  }

  /** An entry that registers `name` keeps it registered, whatever follows. */
  lemma {:induction false} RegistryContains(env: seq<(string, string)>, name: string, i: int)
    requires 0 <= i < |env| && Contributes(env[i], name)
    ensures name in RegistryOf(env).pins
    decreases |env|
  {
    var init := env[..|env| - 1];
    if i < |init| {
      assert init[i] == env[i];
      RegistryContains(init, name, i);
    }
  }

  /** Every registered name comes from some entry that registers it. */
  lemma {:induction false} RegistrySource(env: seq<(string, string)>, name: string) returns (i: nat)
    requires name in RegistryOf(env).pins
    ensures i < |env| && Contributes(env[i], name)
    decreases |env|
  {
    if Contributes(env[|env| - 1], name) {
      i := |env| - 1;
    } else {
      var init := env[..|env| - 1];
      i := RegistrySource(init, name);
      assert init[i] == env[i];
    }
  }

  /** When several entries name the same device, the last one whose value parses wins. */
  lemma {:induction false} RegistryLastWins(env: seq<(string, string)>, name: string, i: nat)
    requires i < |env| && Contributes(env[i], name)
    requires forall j :: i < j < |env| ==> !Contributes(env[j], name)
    ensures name in RegistryOf(env).pins
    ensures RegistryOf(env).pins[name] == ParseInt(env[i].1).value
  {
    var init := env[..|env| - 1];
    if i < |env| - 1 {
      forall j | i < j < |init| ensures !Contributes(init[j], name) {
        assert init[j] == env[j];
      }
      RegistryLastWins(init, name, i);
    }
  }

  /** Every registered name is already lower case. */
  lemma {:induction false} RegistryNamesLower(env: seq<(string, string)>)
    ensures forall n :: n in RegistryOf(env).pins ==> Lower(n) == n
  {
    if env != [] {
      RegistryNamesLower(env[..|env| - 1]);
      var kv := env[|env| - 1];
      if IsDeviceKey(kv.0) {
        LowerIdempotent(kv.0[7..]);
      }
    }
  }

  // ---------------------------------------------------------------- validate_config

  /** Python truthiness of an optional string: neither None nor "". */
  predicate Set(v: Option<string>) {
    v.Some? && v.value != ""
  }

  /** `OFFLINE_MODE` (default "false") equals "true" ignoring case. */
  predicate OfflineMode(offline: Option<string>) {
    Lower(offline.GetOr("false")) == "true"
  }

  /** `validate_config()`: None when it returns True, otherwise the ValueError's message. */
  function ValidateConfig(offline: Option<string>, botToken: Option<string>, channelId: Option<string>,
                          apiKey: Option<string>, reg: Registry): (error: Option<string>)
    ensures error.None? ==> reg.pins != map[]
    ensures error.None? && !OfflineMode(offline) ==> Set(botToken) && Set(channelId) && Set(apiKey)
    ensures (reg.pins != map[] && (OfflineMode(offline) || (Set(botToken) && Set(channelId) && Set(apiKey))))
            ==> error.None?
    ensures !OfflineMode(offline) && !Set(botToken) ==> error == Some("DISCORD_BOT_TOKEN is not set in .env file")
  {
    if !OfflineMode(offline) && !Set(botToken) then Some("DISCORD_BOT_TOKEN is not set in .env file")
    else if !OfflineMode(offline) && !Set(channelId) then Some("DISCORD_CHANNEL_ID is not set in .env file")
    else if !OfflineMode(offline) && !Set(apiKey) then Some("OPENAI_API_KEY is not set in .env file")
    else if |reg.pins| == 0 then Some("No device to GPIO pin mappings found in .env file")
    else None
  }

  // ---------------------------------------------------------------- schedule table

  /** `DEVICE_SCHEDULES`: device -> action -> times. */
  type Table = map<string, map<string, seq<string>>>

  /** `re.match(r"^\d{2}:\d{2}$", time)`: `$` also matches before one final newline. */
  predicate TimeFormatOk(t: string) {
    && (|t| == 5 || (|t| == 6 && t[5] == '\n'))
    && IsDigit(t[0]) && IsDigit(t[1]) && t[2] == ':' && IsDigit(t[3]) && IsDigit(t[4])
  }

  /** The store checks the shape of a time only, not the ranges of hour and minute. */
  lemma FormatOnly()
    ensures TimeFormatOk("99:99") && TimeFormatOk("25:00\n")
    ensures !TimeFormatOk("7:30") && !TimeFormatOk("07:30 ")
  {
  }

  /** The three checks `add_schedule` makes before touching the table. */
  predicate Admissible(reg: Registry, device: string, action: string, time: string) {
    device in reg.pins && (action == "on" || action == "off") && TimeFormatOk(time)
  }

  predicate Has(tb: Table, device: string, action: string, time: string) {
    device in tb && action in tb[device] && time in tb[device][action]
  }

  /** The list under `device`/`action`, if that node exists. */
  function Slot(tb: Table, device: string, action: string): Option<seq<string>> {
    if device in tb && action in tb[device] then Some(tb[device][action]) else None
  }

  function TimesOf(tb: Table, device: string, action: string): seq<string> {
    Slot(tb, device, action).GetOr([])
  }

  /** `after` differs from `before` at most in the list under `device`/`action`. */
  ghost predicate Unaffected(before: Table, after: Table, device: string, action: string) {
    && (forall e :: e != device ==> (e in after <==> e in before))
    && (forall e :: e != device && e in before ==> after[e] == before[e])
    && (forall b :: b != action ==> Slot(after, device, b) == Slot(before, device, b))
  }

  /** Every list sorted ascending without duplicates. */
  predicate SortedUnique(tb: Table) {
    forall d, a :: d in tb && a in tb[d] ==> StrictlyAscending(tb[d][a])
  }

  /** No empty action list and no empty device map. */
  predicate Pruned(tb: Table) {
    forall d :: d in tb ==> tb[d] != map[] && forall a :: a in tb[d] ==> tb[d][a] != []
  }

  predicate Canonical(tb: Table) {
    SortedUnique(tb) && Pruned(tb)
  }

  /** What `Canonical` says about the one list under `device`/`action` and its nodes. */
  predicate TidyAt(tb: Table, device: string, action: string) {
    && StrictlyAscending(TimesOf(tb, device, action))
    && (device in tb ==> tb[device] != map[])
    && Slot(tb, device, action) != Some([])
  }

  /** The table after `add_schedule` accepted the entry: create the nodes that are
      missing, then `append(time); sort()` unless the time is already listed. */
  function AddEntry(tb: Table, device: string, action: string, time: string): Table {
    if Has(tb, device, action, time) then tb
    else
      var acts := if device in tb then tb[device] else map[];
      var times := if action in acts then acts[action] else [];
      tb[device := acts[action := Sort(times + [time])]]
  }

  /** After `add_schedule` the time is listed, and a new time lands in an ascending list
      holding the old times plus this one. */
  lemma AddEntryFacts(tb: Table, device: string, action: string, time: string)
    ensures var r := AddEntry(tb, device, action, time);
            && Has(r, device, action, time)
            && (!Has(tb, device, action, time) ==> Ascending(r[device][action]))
            && multiset(r[device][action])
               == multiset(TimesOf(tb, device, action)) + (if Has(tb, device, action, time) then multiset{} else multiset{time})
  {
    if !Has(tb, device, action, time) {
      var times := TimesOf(tb, device, action);
      SortFacts(times + [time]);
      assert time in multiset(Sort(times + [time]));
    }
  }

  /** `add_schedule` touches nothing but the list under `device`/`action`. */
  lemma AddEntryFrame(tb: Table, device: string, action: string, time: string)
    ensures Unaffected(tb, AddEntry(tb, device, action, time), device, action)
  {
    if !Has(tb, device, action, time) {
      var r := AddEntry(tb, device, action, time);
      var acts := if device in tb then tb[device] else map[];
      assert r[device] == acts[action := Sort(TimesOf(tb, device, action) + [time])];
      forall b | b != action ensures Slot(r, device, b) == Slot(tb, device, b) {
        assert b in r[device] <==> b in acts;
      }
    }
  }

  /** The table after `remove_schedule`: drop the first occurrence, then prune empty nodes. */
  function RemoveEntry(tb: Table, device: string, action: string, time: string): Table {
    if !Has(tb, device, action, time) then tb
    else
      var times := RemoveFirst(tb[device][action], time);
      var acts := if times == [] then tb[device] - {action} else tb[device][action := times];
      if acts == map[] then
        assert action !in acts && times == [];
        tb - {device}
      else tb[device := acts]
  }

  /** Removing an absent entry changes nothing; otherwise exactly one copy of the time leaves its list. */
  lemma RemoveEntryFacts(tb: Table, device: string, action: string, time: string)
    ensures var r := RemoveEntry(tb, device, action, time);
            && (!Has(tb, device, action, time) ==> r == tb)
            && multiset(TimesOf(r, device, action)) == multiset(TimesOf(tb, device, action)) - multiset{time}
  {
    if Has(tb, device, action, time) {
      var times := RemoveFirst(tb[device][action], time);
      var r := RemoveEntry(tb, device, action, time);
      if times != [] {
        var acts := tb[device][action := times];
        assert action in acts;
        assert r == tb[device := acts];
        assert TimesOf(r, device, action) == times;
      } else {
        assert TimesOf(r, device, action) == [];
      }
    }
  }

  /** A successful removal leaves neither an empty list nor an empty device map behind it. */
  lemma RemoveEntryPrunes(tb: Table, device: string, action: string, time: string)
    requires Has(tb, device, action, time)
    ensures var r := RemoveEntry(tb, device, action, time);
            Slot(r, device, action) != Some([]) && (device in r ==> r[device] != map[])
  {
  }

  /** Removal touches nothing but the list under `device`/`action` (and its pruned nodes). */
  lemma RemoveEntryFrame(tb: Table, device: string, action: string, time: string)
    ensures Unaffected(tb, RemoveEntry(tb, device, action, time), device, action)
  {
    var r := RemoveEntry(tb, device, action, time);
    if Has(tb, device, action, time) {
      var times := RemoveFirst(tb[device][action], time);
      var acts := if times == [] then tb[device] - {action} else tb[device][action := times];
      forall b | b != action ensures Slot(r, device, b) == Slot(tb, device, b) {
        assert b in acts <==> b in tb[device];
        if b in acts {
          assert acts[b] == tb[device][b];
        }
      }
    }
  }

  // ---------------------------------------------------------------- invariants of the table

  /** Inserting a new time into a sorted duplicate-free list keeps it so. */
  lemma SortInsertStrict(times: seq<string>, time: string)
    requires StrictlyAscending(times) && time !in times
    ensures StrictlyAscending(Sort(times + [time]))
  {
    StrictlyAscendingCounts(times);
    assert multiset(times)[time] == 0;
    SortFacts(times + [time]);
    AscendingDistinct(Sort(times + [time]));
  }

  /** On one list: `list.remove(t)` undoes `append(t); sort()` of a new time. */
  lemma InsertThenRemove(times: seq<string>, time: string)
    requires StrictlyAscending(times) && time !in times
    ensures RemoveFirst(Sort(times + [time]), time) == times
  {
    var sorted := Sort(times + [time]);
    SortFacts(times + [time]);
    SortInsertStrict(times, time);
    RemoveFirstSubsequence(sorted, time);
    StrictlyAscendingIsAscending(RemoveFirst(sorted, time));
    StrictlyAscendingIsAscending(times);
    AscendingUnique(RemoveFirst(sorted, time), times);
  }

  /** On one list: `append(t); sort()` undoes `list.remove(t)` of a present time. */
  lemma RemoveThenInsert(list: seq<string>, time: string)
    requires StrictlyAscending(list) && time in list
    ensures time !in RemoveFirst(list, time)
    ensures Sort(RemoveFirst(list, time) + [time]) == list
  {
    StrictlyAscendingCounts(list);
    var rest := RemoveFirst(list, time);
    assert multiset(rest)[time] == 0;
    SortFacts(rest + [time]);
    StrictlyAscendingIsAscending(list);
    AscendingUnique(Sort(rest + [time]), list);
  }

  /** `add_schedule` keeps every list sorted and duplicate-free, and creates no empty node. */
  lemma AddPreservesCanonical(tb: Table, device: string, action: string, time: string)
    requires Canonical(tb)
    ensures Canonical(AddEntry(tb, device, action, time))
  {
    if !Has(tb, device, action, time) {
      SortInsertStrict(TimesOf(tb, device, action), time);
    }
  }

  /** `remove_schedule` keeps every list sorted and duplicate-free, and leaves no empty node. */
  lemma RemovePreservesCanonical(tb: Table, device: string, action: string, time: string)
    requires Canonical(tb)
    ensures Canonical(RemoveEntry(tb, device, action, time))
  {
    if Has(tb, device, action, time) {
      var r := RemoveEntry(tb, device, action, time);
      var times := RemoveFirst(tb[device][action], time);
      RemoveFirstSubsequence(tb[device][action], time);
      RemoveEntryPrunes(tb, device, action, time);
      RemoveEntryFrame(tb, device, action, time);
      forall d, a | d in r && a in r[d] ensures StrictlyAscending(r[d][a]) && r[d][a] != [] {
        if d != device {
          assert r[d] == tb[d];
        } else if a != action {
          assert Slot(r, d, a) == Slot(tb, d, a);
        } else {
          assert r[d][a] == times;
        }
      }
    }
  }

  lemma MapUpdateSame<K, V>(m: map<K, V>, k: K)
    requires k in m
    ensures m[k := m[k]] == m
  {
  }

  lemma MapUpdateTwice<K, V>(m: map<K, V>, k: K, v: V, w: V)
    ensures m[k := v][k := w] == m[k := w]
  {
  }

  lemma MapUpdateRemove<K, V>(m: map<K, V>, k: K, v: V)
    ensures m[k := v] - {k} == m - {k}
  {
  }

  lemma MapUpdateDrop<K, V>(m: map<K, V>, k: K, v: V)
    requires k !in m
    ensures m[k := v] - {k} == m
  {
  }

  /** Removing a time just added restores the table exactly. */
  lemma RemoveAfterAdd(tb: Table, device: string, action: string, time: string)
    requires TidyAt(tb, device, action) && !Has(tb, device, action, time)
    ensures RemoveEntry(AddEntry(tb, device, action, time), device, action, time) == tb
  {
    var times := TimesOf(tb, device, action);
    var sorted := Sort(times + [time]);
    InsertThenRemove(times, time);
    SortFacts(times + [time]);
    assert time in multiset(sorted);
    RemoveAfterPut(tb, device, action, time, sorted);
  }

  /** `RemoveAfterAdd` for any list `sorted` that holds `time` and loses exactly it. */
  lemma RemoveAfterPut(tb: Table, device: string, action: string, time: string, sorted: seq<string>)
    requires TidyAt(tb, device, action) && !Has(tb, device, action, time)
    requires time in sorted && RemoveFirst(sorted, time) == TimesOf(tb, device, action)
    ensures var acts := if device in tb then tb[device] else map[];
            RemoveEntry(tb[device := acts[action := sorted]], device, action, time) == tb
  {
    var acts := if device in tb then tb[device] else map[];
    var times := TimesOf(tb, device, action);
    var mid := tb[device := acts[action := sorted]];
    assert mid[device][action] == sorted;
    assert Has(mid, device, action, time);
    var back := if times == [] then mid[device] - {action} else mid[device][action := times];
    if action in acts {
      assert times != [];
      MapUpdateTwice(acts, action, sorted, times);
      MapUpdateSame(acts, action);
    } else {
      MapUpdateDrop(acts, action, sorted);
    }
    assert back == acts;
    if acts == map[] {
      assert device !in tb;
      assert RemoveEntry(mid, device, action, time) == mid - {device};
      MapUpdateDrop(tb, device, acts[action := sorted]);
    } else {
      assert RemoveEntry(mid, device, action, time) == mid[device := back];
      MapUpdateTwice(tb, device, acts[action := sorted], acts);
      MapUpdateSame(tb, device);
    }
  }

  /** Adding back a time just removed restores the table exactly. */
  lemma AddAfterRemove(tb: Table, device: string, action: string, time: string)
    requires TidyAt(tb, device, action) && Has(tb, device, action, time)
    ensures AddEntry(RemoveEntry(tb, device, action, time), device, action, time) == tb
  {
    var list := tb[device][action];
    assert list == TimesOf(tb, device, action);
    var rest := RemoveFirst(list, time);
    RemoveThenInsert(list, time);
    var acts := if rest == [] then tb[device] - {action} else tb[device][action := rest];
    var mid := if acts == map[] then tb - {device} else tb[device := acts];
    assert RemoveEntry(tb, device, action, time) == mid;
    var acts' := if device in mid then mid[device] else map[];
    assert acts' == acts;
    var rest' := if action in acts' then acts'[action] else [];
    assert rest' == rest;
    assert !Has(mid, device, action, time);
    assert AddEntry(mid, device, action, time) == mid[device := acts[action := list]];
    if rest == [] {
      assert acts[action := list] == tb[device];
    } else {
      MapUpdateTwice(tb[device], action, rest, list);
      MapUpdateSame(tb[device], action);
    }
    if acts == map[] {
      assert mid[device := tb[device]] == tb;
    } else {
      MapUpdateTwice(tb, device, acts, tb[device]);
      MapUpdateSame(tb, device);
    }
  }

  // ---------------------------------------------------------------- the store

  /** What `get_schedules` returns: one device's action map, or the whole table. */
  datatype ScheduleView = DeviceView(actions: map<string, seq<string>>) | TableView(all: Table)

  /** The module-global schedule table together with the registry it checks devices against.
      `saves` records every table handed to `save_schedules`, in order. */
  class ScheduleStore {
    const registry: Registry
    var table: Table
    var saves: seq<Table>

    /** `load_schedules()` leaves whatever the JSON file held, or an empty table. */
    constructor (registry: Registry, loaded: Table)
      ensures this.registry == registry && table == loaded && saves == []
    {
      this.registry := registry;
      table := loaded;
      saves := [];
    }

    /** `save_schedules()`: writes the table out; `written` is whether the write succeeded. */
    method Save(written: bool) returns (ok: bool)
      modifies this
      ensures table == old(table) && saves == old(saves) + [table] && ok == written
    {
      saves := saves + [table];
      ok := written;
    }

    /** `add_schedule(device, action, time)`; `saveOk` is what `save_schedules()` would return. */
    method AddSchedule(device: string, action: string, time: string, saveOk: bool) returns (ok: bool)
      modifies this
      ensures !Admissible(registry, device, action, time) ==>
                !ok && table == old(table) && saves == old(saves)
      ensures Admissible(registry, device, action, time) && Has(old(table), device, action, time) ==>
                ok && table == old(table) && saves == old(saves)
      ensures Admissible(registry, device, action, time) && !Has(old(table), device, action, time) ==>
                table == AddEntry(old(table), device, action, time)
                && saves == old(saves) + [table] && ok == saveOk
      ensures Canonical(old(table)) ==> Canonical(table)
    {
      if device !in registry.pins {
        return false;
      }
      if action != "on" && action != "off" {
        return false;
      }
      if !TimeFormatOk(time) {
        return false;
      }
      ghost var before := table;
      ghost var acts := if device in table then table[device] else map[];
      if device !in table {
        table := table[device := map[]];
      }
      if action !in table[device] {
        table := table[device := table[device][action := []]];
      }
      var times := table[device][action];
      assert times == TimesOf(before, device, action);
      assert acts[action := times] == table[device];
      ghost var created := table[device];
      assert table == before[device := created] by {
        if device !in before {
          MapUpdateTwice(before, device, map[], created);
        } else if action !in before[device] {
          MapUpdateTwice(before, device, before[device], created);
          MapUpdateSame(before, device);
        } else {
          MapUpdateSame(before, device);
        }
      }
      if time !in times {
        var sorted := Sort(times + [time]);
        table := table[device := table[device][action := sorted]];
        MapUpdateTwice(acts, action, times, sorted);
        MapUpdateTwice(before, device, created, acts[action := sorted]);
        assert table == AddEntry(before, device, action, time);
        if Canonical(before) {
          AddPreservesCanonical(before, device, action, time);
        }
        ok := Save(saveOk);
        return;
      }
      assert Has(before, device, action, time);
      assert table == before;
      return true;
    }

    /** `remove_schedule(device, action, time)`; `saveOk` is what `save_schedules()` would return. */
    method RemoveSchedule(device: string, action: string, time: string, saveOk: bool) returns (ok: bool)
      modifies this
      ensures !Has(old(table), device, action, time) ==>
                !ok && table == old(table) && saves == old(saves)
      ensures Has(old(table), device, action, time) ==>
                table == RemoveEntry(old(table), device, action, time)
                && saves == old(saves) + [table] && ok == saveOk
      ensures Canonical(old(table)) ==> Canonical(table)
    {
      if device in table && action in table[device] && time in table[device][action] {
        ghost var before := table;
        var times := RemoveFirst(table[device][action], time);
        ghost var acts := if times == [] then before[device] - {action} else before[device][action := times];
        table := table[device := table[device][action := times]];
        if table[device][action] == [] {
          table := table[device := table[device] - {action}];
          MapUpdateRemove(before[device], action, times);
          MapUpdateTwice(before, device, before[device][action := times], acts);
        }
        assert table == before[device := acts];
        assert RemoveEntry(before, device, action, time) == if acts == map[] then before - {device} else before[device := acts];
        if table[device] == map[] {
          table := table - {device};
          MapUpdateRemove(before, device, acts);
        }
        if Canonical(before) {
          RemovePreservesCanonical(before, device, action, time);
        }
        ok := Save(saveOk);
        return;
      }
      return false;
    }

    /** `get_schedules(device)`. A name is a filter only when non-empty (Python truthiness),
        so `Some("")` returns the whole table like None; an unknown name gives `{}`. */
    function GetSchedules(device: Option<string>): (r: ScheduleView)
      reads this
      ensures r.DeviceView? <==> Set(device)
      ensures r.DeviceView? ==> forall a :: Slot(table, device.value, a) == if a in r.actions then Some(r.actions[a]) else None
      ensures r.TableView? ==> r.all == table
    {
      if Set(device) then
        DeviceView(if device.value in table then table[device.value] else map[])
      else TableView(table)
    }
  }
}
