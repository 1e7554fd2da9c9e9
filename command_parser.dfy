/**
 * Chat command parsing (waterbot/utils/command_parser.py).
 *
 * `parse_command` strips and lower-cases its input, then tries a fixed cascade of exact
 * words and regular expressions, the first success deciding the command. The regular
 * expressions are applied with `re.match`, which anchors at the start of the text only,
 * so whatever follows a successful match is ignored. Each expression is modelled by a
 * matcher over the text that follows the regular-expression engine's choices: `\s+` and
 * `\w+` take the longest run (shorter ones cannot be followed by what comes next), the
 * alternatives are tried left to right, and the optional timeout group matches whenever
 * whitespace and a digit follow the device. The registry's device names and
 * `DEFAULT_TIMEOUT` are parameters.
 */
module CommandParser {
  import opened Wrappers
  import opened Text
  import opened Config
  import Scheduler

  /** The command types and their parameters. */
  datatype Command =
    | Status
    | Test
    | Time
    | Ip
    | ShowDeviceSchedules(device: string)
    | Error(message: string)
    | ScheduleAdd(device: string, action: string, time: string)
    | ScheduleRemove(device: string, action: string, time: string)
    | AllOn(timeout: int)
    | AllOff(timeout: int)
    | DeviceOn(device: string, timeout: int)
    | DeviceOff(device: string, offTimeout: Option<int>)
    | ShowSchedules
    | Help

  // ---------------------------------------------------------------- matching primitives

  /** A greedy `X+` at the start of `s`, for the character class `p`: the run it takes
      and the text after it, or None when `s` does not start with such a character. */
  function Plus(p: char -> bool, s: string): (r: Option<(string, string)>)
    ensures r.None? <==> s == [] || !p(s[0])
    ensures r.Some? ==> r.value.0 != [] && s == r.value.0 + r.value.1
    ensures r.Some? ==> forall k :: 0 <= k < |r.value.0| ==> p(r.value.0[k])
    ensures r.Some? ==> r.value.1 == [] || !p(r.value.1[0])
  {
    if s == [] || !p(s[0]) then None
    else
      match Plus(p, s[1..])
      case None => Some(([s[0]], s[1..]))
      case Some((run, rest)) =>
        assert s == [s[0]] + s[1..];
        Some(([s[0]] + run, rest))
  }

  predicate StartsWith(s: string, lit: string) {
    |lit| <= |s| && s[..|lit|] == lit
  }

  /** A non-empty run of `\w` characters. */
  predicate Word(w: string) {
    w != [] && AllWordChars(w)
  }

  /** What `\d{2}:\d{2}` matches. */
  predicate ClockShape(t: string) {
    |t| == 5 && IsDigit(t[0]) && IsDigit(t[1]) && t[2] == ':' && IsDigit(t[3]) && IsDigit(t[4])
  }

  /** The range check of the parser: `int(hour) <= 23 and int(minute) <= 59`. */
  predicate InRange(t: string)
    requires ClockShape(t)
  {
    DigitsValue(t[..2]) <= 23 && DigitsValue(t[3..]) <= 59
  }

  function Unknown(device: string): string {
    "Unknown device: " + device
  }

  // ---------------------------------------------------------------- the three patterns

  /** `re.match(r"(?:schedule|schedules)\s+for\s+(\w+)", t)`: the device word. The
      alternative "schedule" is tried first; it fails exactly when an "s" follows it. */
  function MatchScheduleFor(t: string): (r: Option<string>)
    ensures r.Some? ==> Word(r.value)
  {
    if !StartsWith(t, "schedule") then None
    else
      var a := Plus(IsSpace, if StartsWith(t, "schedules") then t[9..] else t[8..]);
      if a.None? then None else MatchForDevice(a.value.1)
  }

  /** The part `for\s+(\w+)` of the query pattern. */
  function MatchForDevice(s: string): (r: Option<string>)
    ensures r.Some? ==> Word(r.value)
  {
    if !StartsWith(s, "for") then None
    else
      var b := Plus(IsSpace, s[3..]);
      if b.None? then None
      else
        var c := Plus(IsWordChar, b.value.1);
        if c.None? then None else Some(c.value.0)
  }

  /** `re.match(kw + r"\s+(\w+)\s+(on|off)\s+(\d{2}:\d{2})", t)`: device, action, time. */
  function MatchEntry(t: string, kw: string): (r: Option<(string, string, string)>)
    ensures r.Some? ==> Word(r.value.0) && (r.value.1 == "on" || r.value.1 == "off") && ClockShape(r.value.2)
  {
    if !StartsWith(t, kw) then None
    else
      var a := Plus(IsSpace, t[|kw|..]);
      if a.None? then None
      else
        var b := Plus(IsWordChar, a.value.1);
        if b.None? then None
        else
          var c := Plus(IsSpace, b.value.1);
          if c.None? then None
          else
            var action := if StartsWith(c.value.1, "on") then "on" else "off";
            if !StartsWith(c.value.1, action) then None
            else
              var d := Plus(IsSpace, c.value.1[|action|..]);
              if d.None? || |d.value.1| < 5 || !ClockShape(d.value.1[..5]) then None
              else Some((b.value.0, action, d.value.1[..5]))
  }

  /** `re.match(kw + r"\s+(\w+)(?:\s+(\d+))?", t)`: the device and, when present, the
      digits of the optional timeout group. */
  function MatchSwitch(t: string, kw: string): (r: Option<(string, Option<string>)>)
    ensures r.Some? ==> Word(r.value.0)
    ensures r.Some? && r.value.1.Some? ==> r.value.1.value != [] && AllDigits(r.value.1.value)
  {
    if !StartsWith(t, kw) then None
    else
      var a := Plus(IsSpace, t[|kw|..]);
      if a.None? then None
      else
        var b := Plus(IsWordChar, a.value.1);
        if b.None? then None
        else
          var c := Plus(IsSpace, b.value.1);
          var d := if c.Some? then Plus(IsDigit, c.value.1) else None;
          Some((b.value.0, if d.Some? then Some(d.value.0) else None))
  }

  // ---------------------------------------------------------------- the cascade

  /** What every command the parser returns satisfies: a device it names is registered
      and is a `\w` word; a schedule entry has an action of "on" or "off" and a time of
      the form `dd:dd` within 23:59; `device_on` carries a whole number of minutes in
      seconds (or the default); `device_off` never carries a timeout; `all_on` and
      `all_off` carry the default; an error names an unregistered word. */
  ghost predicate Sound(devices: set<string>, defaultTimeout: int, r: Command) {
    && (r.ShowDeviceSchedules? || r.ScheduleAdd? || r.ScheduleRemove? || r.DeviceOn? || r.DeviceOff? ==>
          r.device in devices && Word(r.device))
    && (r.ScheduleAdd? || r.ScheduleRemove? ==>
          (r.action == "on" || r.action == "off") && ClockShape(r.time) && InRange(r.time))
    && (r.DeviceOn? ==> r.timeout == defaultTimeout * 60 || (r.timeout >= 0 && r.timeout % 60 == 0))
    && (r.DeviceOff? ==> r.offTimeout == None)
    && (r.AllOn? || r.AllOff? ==> r.timeout == defaultTimeout * 60)
    && (r.Error? ==> exists w :: Word(w) && w !in devices && r.message == Unknown(w))
  }

  /** The outcome of a matched `schedule(s) for` command. */
  function ForCommand(devices: set<string>, device: string): (r: Command)
    requires Word(device)
    ensures Sound(devices, 0, r) && (r.ShowDeviceSchedules? || r.Error?)
  {
    if device !in devices then Error(Unknown(device)) else ShowDeviceSchedules(device)
  }

  /** The outcome of a matched schedule or unschedule command. */
  function EntryCommand(devices: set<string>, m: (string, string, string), add: bool): (r: Command)
    requires Word(m.0) && (m.1 == "on" || m.1 == "off") && ClockShape(m.2)
    ensures Sound(devices, 0, r) && (r.ScheduleAdd? || r.ScheduleRemove? || r.Error? || r.Help?)
  {
    if m.0 !in devices then Error(Unknown(m.0))
    else if !InRange(m.2) then Help
    else if add then ScheduleAdd(m.0, m.1, m.2)
    else ScheduleRemove(m.0, m.1, m.2)
  }

  /** The outcome of a matched `on` command: minutes become seconds. */
  function OnCommand(devices: set<string>, defaultTimeout: int, m: (string, Option<string>)): (r: Command)
    requires Word(m.0) && (m.1.Some? ==> AllDigits(m.1.value))
    ensures Sound(devices, defaultTimeout, r) && (r.DeviceOn? || r.Error?)
  {
    if m.0 !in devices then Error(Unknown(m.0))
    else DeviceOn(m.0, if m.1.Some? then DigitsValue(m.1.value) * 60 else defaultTimeout * 60)
  }

  /** The outcome of a matched `off` command: the timeout digits are dropped. */
  function OffCommand(devices: set<string>, m: (string, Option<string>)): (r: Command)
    requires Word(m.0)
    ensures Sound(devices, 0, r) && (r.DeviceOff? || r.Error?)
  {
    if m.0 !in devices then Error(Unknown(m.0)) else DeviceOff(m.0, None)
  }

  /** `parse_command` after `text.strip().lower()`. */
  function Classify(devices: set<string>, defaultTimeout: int, t: string): (r: Command)
    ensures Sound(devices, defaultTimeout, r)
    ensures r.AllOn? ==> t == "on all"
    ensures r.AllOff? ==> t == "off all"
  {
    if t == "status" then Status
    else if t == "test" then Test
    else if t == "time" then Time
    else if t == "ip" then Ip
    else ScheduleOrRest(devices, defaultTimeout, t)
  }

  /** The cascade after the fixed words: the three schedule patterns first. */
  function ScheduleOrRest(devices: set<string>, defaultTimeout: int, t: string): (r: Command)
    ensures Sound(devices, defaultTimeout, r)
    ensures r.AllOn? ==> t == "on all"
    ensures r.AllOff? ==> t == "off all"
  {
    if MatchScheduleFor(t).Some? then ForCommand(devices, MatchScheduleFor(t).value)
    else if MatchEntry(t, "schedule").Some? then EntryCommand(devices, MatchEntry(t, "schedule").value, true)
    else if MatchEntry(t, "unschedule").Some? then EntryCommand(devices, MatchEntry(t, "unschedule").value, false)
    else SwitchOrRest(devices, defaultTimeout, t)
  }

  /** The rest of the cascade, once no schedule pattern has matched. */
  function SwitchOrRest(devices: set<string>, defaultTimeout: int, t: string): (r: Command)
    ensures Sound(devices, defaultTimeout, r)
    ensures r.AllOn? ==> t == "on all"
    ensures r.AllOff? ==> t == "off all"
  {
    if t == "on all" then AllOn(defaultTimeout * 60)
    else if t == "off all" then AllOff(defaultTimeout * 60)
    else if MatchSwitch(t, "on").Some? then OnCommand(devices, defaultTimeout, MatchSwitch(t, "on").value)
    else if MatchSwitch(t, "off").Some? then OffCommand(devices, MatchSwitch(t, "off").value)
    else if t == "schedules" || t == "schedule" then ShowSchedules
    else Help
  }

  /** `parse_command(text)`: never None, whatever its docstring says. */
  function Parse(devices: set<string>, defaultTimeout: int, text: string): (r: Command)
    ensures Sound(devices, defaultTimeout, r)
    ensures r.AllOn? ==> Lower(Strip(text)) == "on all"
    ensures r.AllOff? ==> Lower(Strip(text)) == "off all"
  {
    Classify(devices, defaultTimeout, Lower(Strip(text)))
  }

  // ---------------------------------------------------------------- normalisation

  /** Whitespace around a command does not matter. */
  lemma ParseIgnoresPadding(devices: set<string>, defaultTimeout: int, pre: string, text: string, post: string)
    requires AllIn(IsSpace, pre) && AllIn(IsSpace, post)
    ensures Parse(devices, defaultTimeout, pre + text + post) == Parse(devices, defaultTimeout, text)
  {
    StripPadding(IsSpace, pre, text, post);
  }

  /** Letter case does not matter. */
  lemma ParseIgnoresCase(devices: set<string>, defaultTimeout: int, text: string)
    ensures Parse(devices, defaultTimeout, Lower(text)) == Parse(devices, defaultTimeout, text)
  {
    LowerStrip(text);
    LowerIdempotent(Strip(text));
  }

  // ---------------------------------------------------------------- matching rendered commands

  /** Concatenation regrouped to the right, the order in which the matchers consume it. */
  lemma Regroup(a: string, b: string, c: string, d: string, e: string, f: string, g: string, h: string)
    ensures a + b + c + d + e + f + g + h == a + (b + (c + (d + (e + (f + (g + h))))))
  {
  }

  /** The same, for the six parts of a switch command with a number. */
  lemma Regroup6(a: string, b: string, c: string, d: string, e: string, f: string)
    ensures a + b + c + d + e + f == a + (b + (c + (d + (e + f))))
  {
  }

  /** The same, for the four parts of a query command. */
  lemma Regroup4(a: string, b: string, c: string, d: string)
    ensures a + b + c + d == a + (b + (c + d))
  {
  }

  /** A greedy `X+` applied to a run of `p` characters followed by a character outside
      `p` (or by nothing) takes exactly that run. */
  lemma {:induction false} PlusOf(p: char -> bool, run: string, rest: string)
    requires run != [] && forall k :: 0 <= k < |run| ==> p(run[k])
    requires rest == [] || !p(rest[0])
    ensures Plus(p, run + rest) == Some((run, rest))
  {
    var s := run + rest;
    assert s[0] == run[0];
    if |run| > 1 {
      assert s[1..] == run[1..] + rest;
      PlusOf(p, run[1..], rest);
      assert [s[0]] + run[1..] == run;
    } else {
      assert s[1..] == rest && [s[0]] == run;
    }
  }

  /** The part of a schedule command after the device: the action, a space, the time. */
  lemma ActionTimeMatches(action: string, time: string, rest: string)
    requires (action == "on" || action == "off") && ClockShape(time)
    ensures var s := action + (" " + (time + rest));
            && StartsWith(s, action) && (StartsWith(s, "on") <==> action == "on")
            && Plus(IsSpace, s[|action|..]) == Some((" ", time + rest))
            && (time + rest)[..5] == time
  {
    var s := action + (" " + (time + rest));
    assert s[1] == action[1] && s[..|action|] == action;
    PlusOf(IsSpace, " ", time + rest);
  }

  /** `kw device action time` followed by anything matches the schedule pattern with
      exactly those three groups. */
  lemma EntryMatches(kw: string, device: string, action: string, time: string, rest: string)
    requires kw == "schedule" || kw == "unschedule"
    requires Word(device) && (action == "on" || action == "off") && ClockShape(time)
    ensures MatchEntry(kw + " " + device + " " + action + " " + time + rest, kw) == Some((device, action, time))
  {
    var s2 := action + (" " + (time + rest));
    var s1 := " " + s2;
    var s0 := device + s1;
    var t := kw + (" " + s0);
    Regroup(kw, " ", device, " ", action, " ", time, rest);
    PlusOf(IsSpace, " ", s0);
    PlusOf(IsWordChar, device, s1);
    PlusOf(IsSpace, " ", s2);
    ActionTimeMatches(action, time, rest);
  }

  /** A schedule command for any device other than "for" does not look like a query for
      a device's schedules. */
  lemma ScheduleIsNotQuery(device: string, rest: string)
    requires Word(device) && device != "for" && (rest == [] || !IsWordChar(rest[0]))
    ensures MatchScheduleFor("schedule " + device + rest) == None
  {
    var u := device + rest;
    var t := "schedule" + (" " + u);
    assert "schedule " + device + rest == t;
    assert t[..8] == "schedule" && t[8] == ' ' && t[8..] == " " + u;
    PlusOf(IsSpace, " ", u);
    if |device| < 3 {
      if rest != [] {
        assert u[|device|] == rest[0] && IsWordChar("for"[|device|]);
      }
    } else if |device| == 3 {
      assert u[..3] == device;
    } else {
      assert u[3..][0] == device[3];
    }
  }

  /** A text not starting with "s" matches neither the query nor the schedule pattern,
      and one starting with neither "s" nor "u" matches none of the three. */
  lemma NotScheduling(t: string)
    requires |t| > 0 && t[0] != 's'
    ensures MatchScheduleFor(t) == None && MatchEntry(t, "schedule") == None
    ensures t[0] != 'u' ==> MatchEntry(t, "unschedule") == None
  {
    assert !StartsWith(t, "schedule") && (t[0] != 'u' ==> !StartsWith(t, "unschedule")) by {
      if |t| >= 8 {
        assert t[..8][0] == t[0];
      }
      if |t| >= 10 {
        assert t[..10][0] == t[0];
      }
    }
  }

  /** Where the cascade ends for a text that only the schedule pattern matches. */
  lemma ClassifiesAsScheduleAdd(devices: set<string>, defaultTimeout: int, t: string)
    requires |t| > 6 && MatchScheduleFor(t) == None && MatchEntry(t, "schedule").Some?
    ensures Classify(devices, defaultTimeout, t) == EntryCommand(devices, MatchEntry(t, "schedule").value, true)
  {
  }

  /** Where the cascade ends for a text that only the unschedule pattern matches. */
  lemma ClassifiesAsScheduleRemove(devices: set<string>, defaultTimeout: int, t: string)
    requires |t| > 6 && MatchScheduleFor(t) == None && MatchEntry(t, "schedule") == None
    requires MatchEntry(t, "unschedule").Some?
    ensures Classify(devices, defaultTimeout, t) == EntryCommand(devices, MatchEntry(t, "unschedule").value, false)
  {
  }

  /** Where the cascade ends for a text that the query pattern matches. */
  lemma ClassifiesAsQuery(devices: set<string>, defaultTimeout: int, t: string)
    requires |t| > 6 && MatchScheduleFor(t).Some?
    ensures Classify(devices, defaultTimeout, t) == ForCommand(devices, MatchScheduleFor(t).value)
  {
  }

  /** Where the cascade ends for a text starting "on" other than "on all". */
  lemma ClassifiesAsOn(devices: set<string>, defaultTimeout: int, t: string)
    requires |t| > 1 && t[0] == 'o' && t[1] == 'n' && t != "on all" && MatchSwitch(t, "on").Some?
    ensures Classify(devices, defaultTimeout, t) == OnCommand(devices, defaultTimeout, MatchSwitch(t, "on").value)
  {
    NotScheduling(t);
  }

  /** Where the cascade ends for a text starting "of" other than "off all". */
  lemma ClassifiesAsOff(devices: set<string>, defaultTimeout: int, t: string)
    requires |t| > 1 && t[0] == 'o' && t[1] == 'f' && t != "off all" && MatchSwitch(t, "off").Some?
    ensures Classify(devices, defaultTimeout, t) == OffCommand(devices, MatchSwitch(t, "off").value)
  {
    NotScheduling(t);
    assert !StartsWith(t, "on") by {
      assert t[..2][1] == 'f';
    }
  }

  /** `schedule device action time`, with anything after the time, is the entry command for
      those three values: an error for an unknown device, help for a time past 23:59. The
      device "for" is the exception: that text is a query for the schedules of `action`. */
  lemma ScheduleRoundTrip(devices: set<string>, defaultTimeout: int, device: string, action: string, time: string, rest: string)
    requires Word(device) && device != "for" && (action == "on" || action == "off") && ClockShape(time)
    ensures Classify(devices, defaultTimeout, "schedule " + device + " " + action + " " + time + rest)
            == EntryCommand(devices, (device, action, time), true)
  {
    var tail := " " + action + " " + time + rest;
    var t := "schedule " + device + tail;
    assert "schedule " + device + " " + action + " " + time + rest == t;
    ScheduleIsNotQuery(device, tail);
    assert "schedule " == "schedule" + " ";
    EntryMatches("schedule", device, action, time, rest);
    ClassifiesAsScheduleAdd(devices, defaultTimeout, t);
  }

  /** `unschedule device action time`, with anything after the time, is the entry command
      for those three values. */
  lemma UnscheduleRoundTrip(devices: set<string>, defaultTimeout: int, device: string, action: string, time: string, rest: string)
    requires Word(device) && (action == "on" || action == "off") && ClockShape(time)
    ensures Classify(devices, defaultTimeout, "unschedule " + device + " " + action + " " + time + rest)
            == EntryCommand(devices, (device, action, time), false)
  {
    var t := "unschedule " + device + " " + action + " " + time + rest;
    assert t[0] == 'u';
    NotScheduling(t);
    assert "unschedule " == "unschedule" + " ";
    EntryMatches("unschedule", device, action, time, rest);
    ClassifiesAsScheduleRemove(devices, defaultTimeout, t);
  }

  /** `schedule for device` and `schedules for device`, with anything after the device
      that is not part of the word, ask for one device's schedules. */
  /** A written query matches the `schedule(s) for` pattern with exactly its device. */
  lemma QueryMatches(kw: string, device: string, rest: string)
    requires kw == "schedule" || kw == "schedules"
    requires Word(device) && (rest == [] || !IsWordChar(rest[0]))
    ensures MatchScheduleFor(kw + " for " + device + rest) == Some(device)
  {
    var u := device + rest;
    var v := "for" + (" " + u);
    var t := kw + (" " + v);
    Regroup4(kw, " for ", device, rest);
    assert " for " + u == " " + v;
    assert t[..8] == "schedule" && t[|kw|..] == " " + v;
    assert StartsWith(t, "schedules") <==> kw == "schedules" by {
      if kw == "schedule" {
        assert t[8] == ' ';
      }
    }
    assert v[0] == 'f';
    PlusOf(IsSpace, " ", v);
    ForDeviceMatches(device, rest);
  }

  /** `for`, a space and a word match the tail of the query pattern with that word. */
  lemma ForDeviceMatches(device: string, rest: string)
    requires Word(device) && (rest == [] || !IsWordChar(rest[0]))
    ensures MatchForDevice("for" + (" " + (device + rest))) == Some(device)
  {
    var u := device + rest;
    var v := "for" + (" " + u);
    assert v[..3] == "for" && v[3..] == " " + u;
    PlusOf(IsSpace, " ", u);
    PlusOf(IsWordChar, device, rest);
  }

  lemma QueryRoundTrip(devices: set<string>, defaultTimeout: int, kw: string, device: string, rest: string)
    requires kw == "schedule" || kw == "schedules"
    requires Word(device) && (rest == [] || !IsWordChar(rest[0]))
    ensures Classify(devices, defaultTimeout, kw + " for " + device + rest)
            == if device in devices then ShowDeviceSchedules(device) else Error(Unknown(device))
  {
    QueryMatches(kw, device, rest);
    ClassifiesAsQuery(devices, defaultTimeout, kw + " for " + device + rest);
  }

  /** A space, then digits followed by a non-digit (or nothing): the optional timeout
      group takes exactly those digits. */
  lemma NumberMatches(digits: string, rest: string)
    requires digits != [] && AllDigits(digits) && (rest == [] || !IsDigit(rest[0]))
    ensures Plus(IsSpace, " " + (digits + rest)) == Some((" ", digits + rest))
    ensures Plus(IsDigit, digits + rest) == Some((digits, rest))
  {
    PlusOf(IsSpace, " ", digits + rest);
    PlusOf(IsDigit, digits, rest);
  }

  /** `kw device digits` followed by a non-digit (or nothing) matches the switch pattern
      with the device and the digits as its groups. */
  lemma SwitchWithNumber(kw: string, device: string, digits: string, rest: string)
    requires kw == "on" || kw == "off"
    requires Word(device) && digits != [] && AllDigits(digits) && (rest == [] || !IsDigit(rest[0]))
    ensures MatchSwitch(kw + " " + device + " " + digits + rest, kw) == Some((device, Some(digits)))
  {
    var s2 := " " + (digits + rest);
    var s1 := device + s2;
    var t := kw + (" " + s1);
    Regroup6(kw, " ", device, " ", digits, rest);
    PlusOf(IsSpace, " ", s1);
    PlusOf(IsWordChar, device, s2);
    NumberMatches(digits, rest);
  }

  /** `kw device` alone matches the switch pattern without its optional group. */
  lemma SwitchAlone(kw: string, device: string)
    requires kw == "on" || kw == "off"
    requires Word(device)
    ensures MatchSwitch(kw + " " + device, kw) == Some((device, None))
  {
    var t := kw + (" " + device);
    assert kw + " " + device == t;
    PlusOf(IsSpace, " ", device);
    assert device + [] == device;
    PlusOf(IsWordChar, device, []);
  }

  /** `on device minutes` switches the device on for that many minutes, given in seconds;
      whatever follows the number is ignored once it does not start with a digit. */
  lemma OnRoundTrip(devices: set<string>, defaultTimeout: int, device: string, minutes: nat, rest: string)
    requires Word(device) && (rest == [] || !IsDigit(rest[0]))
    ensures Classify(devices, defaultTimeout, "on " + device + " " + NatToString(minutes) + rest)
            == if device in devices then DeviceOn(device, minutes * 60) else Error(Unknown(device))
  {
    var n := NatToString(minutes);
    NatToStringRoundTrip(minutes);
    var t := "on " + device + " " + n + rest;
    assert "on " == "on" + " ";
    SwitchWithNumber("on", device, n, rest);
    assert t[0] == 'o' && t[1] == 'n' && t[3 + |device|] == ' ' && |t| >= 5 + |device|;
    ClassifiesAsOn(devices, defaultTimeout, t);
  }

  /** `on device` without a number uses the default timeout, unless the device is "all":
      that text is the command for every device. */
  lemma OnDefaultRoundTrip(devices: set<string>, defaultTimeout: int, device: string)
    requires Word(device) && device != "all"
    ensures Classify(devices, defaultTimeout, "on " + device)
            == if device in devices then DeviceOn(device, defaultTimeout * 60) else Error(Unknown(device))
  {
    var t := "on " + device;
    assert "on " == "on" + " ";
    SwitchAlone("on", device);
    assert t[0] == 'o' && t[1] == 'n' && t[3..] == device && "on all"[3..] == "all";
    ClassifiesAsOn(devices, defaultTimeout, t);
  }

  /** `off device minutes` switches the device off for good: the number is dropped. */
  lemma OffRoundTrip(devices: set<string>, defaultTimeout: int, device: string, minutes: nat, rest: string)
    requires Word(device) && (rest == [] || !IsDigit(rest[0]))
    ensures Classify(devices, defaultTimeout, "off " + device + " " + NatToString(minutes) + rest)
            == if device in devices then DeviceOff(device, None) else Error(Unknown(device))
  {
    var n := NatToString(minutes);
    NatToStringRoundTrip(minutes);
    var t := "off " + device + " " + n + rest;
    assert "off " == "off" + " ";
    SwitchWithNumber("off", device, n, rest);
    assert t[0] == 'o' && t[1] == 'f' && t[4 + |device|] == ' ' && |t| >= 6 + |device|;
    ClassifiesAsOff(devices, defaultTimeout, t);
  }

  /** `off device` switches the device off, unless the device is "all": that text is the
      command for every device. */
  lemma OffAloneRoundTrip(devices: set<string>, defaultTimeout: int, device: string)
    requires Word(device) && device != "all"
    ensures Classify(devices, defaultTimeout, "off " + device)
            == if device in devices then DeviceOff(device, None) else Error(Unknown(device))
  {
    var t := "off " + device;
    assert "off " == "off" + " ";
    SwitchAlone("off", device);
    assert t[0] == 'o' && t[1] == 'f' && t[4..] == device && "off all"[4..] == "all";
    ClassifiesAsOff(devices, defaultTimeout, t);
  }

  /** A time the parser lets through has the shape the store checks, and its range check
      agrees with what `strptime("%H:%M")` in the scheduler accepts. */
  lemma ParsedTimeAccepted(t: string)
    requires ClockShape(t)
    ensures TimeFormatOk(t)
    ensures InRange(t) <==> Scheduler.ParsesAsClock(t)
  {
    Scheduler.StoreTimeParses(t);
    assert t[3..5] == t[3..];
  }

  /** Every schedule entry the parser returns can be stored and scheduled. */
  lemma ParsedEntriesSchedulable(devices: set<string>, defaultTimeout: int, text: string)
    ensures var r := Parse(devices, defaultTimeout, text);
            r.ScheduleAdd? || r.ScheduleRemove? ==> TimeFormatOk(r.time) && Scheduler.ParsesAsClock(r.time)
  {
    var r := Parse(devices, defaultTimeout, text);
    if r.ScheduleAdd? || r.ScheduleRemove? {
      ParsedTimeAccepted(r.time);
    }
  }

  /** The four fixed words checked first. */
  lemma ExactWords(devices: set<string>, defaultTimeout: int)
    ensures Classify(devices, defaultTimeout, "status") == Status
    ensures Classify(devices, defaultTimeout, "test") == Test
    ensures Classify(devices, defaultTimeout, "time") == Time
    ensures Classify(devices, defaultTimeout, "ip") == Ip
  {
  }

  /** "on all" and "off all" switch every device, for the default timeout. */
  lemma AllCommands(devices: set<string>, defaultTimeout: int)
    ensures Classify(devices, defaultTimeout, "on all") == AllOn(defaultTimeout * 60)
    ensures Classify(devices, defaultTimeout, "off all") == AllOff(defaultTimeout * 60)
  {
    NotScheduling("on all");
    NotScheduling("off all");
  }

  /** "schedules" on its own lists every schedule. */
  lemma ListingPlural(devices: set<string>, defaultTimeout: int)
    ensures Classify(devices, defaultTimeout, "schedules") == ShowSchedules
  {
    var t := "schedules";
    assert t[..8] == "schedule" && t[..9] == t && t[8..] == "s" && t[9..] == [];
    assert MatchScheduleFor(t) == None && MatchEntry(t, "schedule") == None;
    assert t[..2][0] == 's' && t[..3][0] == 's';
  }

  /** "schedule" on its own lists every schedule. */
  lemma ListingSingular(devices: set<string>, defaultTimeout: int)
    ensures Classify(devices, defaultTimeout, "schedule") == ShowSchedules
  {
    var t := "schedule";
    assert t[..8] == t && t[8..] == [];
    assert MatchScheduleFor(t) == None && MatchEntry(t, "schedule") == None;
    assert t[..2][0] == 's' && t[..3][0] == 's';
  }

  /** Text that no pattern matches asks for help. */
  lemma HelpFallback(devices: set<string>, defaultTimeout: int)
    ensures Classify(devices, defaultTimeout, "help") == Help
  {
    NotScheduling("help");
  }
}
