/**
 * `FileStateRepository` (src/kyf/core/state_repository.py): the seen-post and
 * replied-comment sets held in memory and mirrored to their files, the saved
 * agent state, and the append-only JSONL action log.
 *
 * The four files of the data directory are fields of the repository: `None`
 * is a missing file. A file's text is modelled by what decoding it gives.
 */
module StateRepository {
  import opened Wrappers
  import opened Json
  import opened AgentStates
  import JsonFields

  /** `seen_posts.json` / `replied_comments.json`, by what `json.loads` makes of the text. */
  datatype IdFile =
    | BlankIds                 // empty or whitespace only
    | Ids(ids: set<string>)    // a JSON list of exactly these strings, as `json.dumps(list(...))` writes it
    | OtherJson(doc: Json)     // any other JSON document
    | NotJson                  // text `json.loads` rejects

  /** `state.json`, by what `json.loads` makes of the text. */
  datatype StateFile =
    | BlankState
    | StateDoc(doc: Json)
    | NotJsonState

  /** One line of `actions.jsonl`. */
  datatype LogLine =
    | BlankLine                // `not line.strip()`
    | Entry(value: Json)       // a line `json.loads` accepts
    | Garbled                  // a line `json.loads` rejects

  /** The exceptions that escape the repository's reads. */
  datatype RepoError =
    | UnreadableIdFile
    | UnreadableState
    | UnreadableLogLine

  // ---- The id files ----

  /** A value `set()` cannot hold: lists and dicts are unhashable. */
  predicate Unhashable(j: Json) {
    j.JArray? || j.JObject?
  }

  /**
   * `set(json.loads(raw))` for a decoded document: a list gives its items, a
   * string its characters, an object its keys; null, a boolean, a number or a
   * list holding a list or an object raise TypeError. Non-string scalars in a
   * list can never equal a post id, and are dropped.
   */
  function IdsOf(doc: Json): (r: Result<set<string>, RepoError>)
    ensures r.Failure? <==> doc.JNull? || doc.JBool? || doc.JNumber?
                            || (doc.JArray? && exists i :: 0 <= i < |doc.items| && Unhashable(doc.items[i]))
    ensures r.Failure? ==> r.error == UnreadableIdFile
    ensures doc.JObject? ==> r == Success(doc.fields.Keys)
    ensures doc.JString? && r.Success? ==> forall x :: x in r.value <==> |x| == 1 && x[0] in doc.s
    ensures doc.JArray? && r.Success? ==> forall x :: x in r.value <==> JString(x) in doc.items
  {
    match doc
    case JNull => Failure(UnreadableIdFile)
    case JBool(_) => Failure(UnreadableIdFile)
    case JNumber(_) => Failure(UnreadableIdFile)
    case JString(s) =>
      var chars := set i | 0 <= i < |s| :: [s[i]];
      assert forall x :: x in chars <==> |x| == 1 && x[0] in s by {
        forall x | |x| == 1 && x[0] in s
          ensures x in chars
        {
          var i :| 0 <= i < |s| && s[i] == x[0];
          assert x == [s[i]];
        }
      }
      Success(chars)
    case JObject(m) => Success(m.Keys)
    case JArray(items) =>
      if exists i :: 0 <= i < |items| && Unhashable(items[i]) then Failure(UnreadableIdFile)
      else
        var strs := set i | 0 <= i < |items| && items[i].JString? :: items[i].s;
        assert forall x :: x in strs <==> JString(x) in items by {
          forall x | JString(x) in items
            ensures x in strs
          {
            var i :| 0 <= i < |items| && items[i] == JString(x);
          }
        }
        Success(strs)
  }

  /** The list `mark_post_seen` writes loads back as the set it was written from. */
  lemma IdListLoadsBack(xs: seq<string>)
    ensures IdsOf(JArray(JsonStrings(xs))).Success?
    ensures forall x :: x in IdsOf(JArray(JsonStrings(xs))).value <==> x in xs
  {
    var js := JsonStrings(xs);
    forall x | x in xs
      ensures JString(x) in js
    {
      var i :| 0 <= i < |xs| && xs[i] == x;
      assert js[i] == JString(x);
    }
  }

  /** Valid JSON that is no list of ids still loads, or raises, as `set()` dictates. */
  lemma OddIdFiles()
    ensures IdsOf(JString("ab")) == Success({"a", "b"})
    ensures IdsOf(JObject(map["k" := JNumber(1.0)])) == Success({"k"})
    ensures IdsOf(JArray([JString("p"), JNumber(2.0)])) == Success({"p"})
    ensures IdsOf(JNull).Failure? && IdsOf(JNumber(5.0)).Failure?
    ensures IdsOf(JArray([JArray([])])).Failure?
  {
    var ab := IdsOf(JString("ab")).value;
    assert "a" in ab && "b" in ab;
    forall x | x in ab
      ensures x == "a" || x == "b"
    {
      assert x == [x[0]];
    }
    assert ab == {"a", "b"};
    assert map["k" := JNumber(1.0)].Keys == {"k"};
    var items := [JString("p"), JNumber(2.0)];
    var p := IdsOf(JArray(items)).value;
    assert "p" in p by {
      assert items[0] == JString("p");
    }
    forall x | x in p
      ensures x == "p"
    {
      assert JString(x) in items;
    }
    assert p == {"p"};
    assert IdsOf(JArray([JArray([])])).Failure? by {
      assert Unhashable(JArray([JArray([])]).items[0]);
    }
  }

  /** The set a seen/replied file contributes at `initialize`; a missing file keeps `current`. */
  function LoadIds(f: Option<IdFile>, current: set<string>): (r: Result<set<string>, RepoError>)
    ensures r.Failure? <==> f == Some(NotJson) || (f.Some? && f.value.OtherJson? && IdsOf(f.value.doc).Failure?)
    ensures r.Failure? ==> r.error == UnreadableIdFile
  {
    match f
    case None => Success(current)
    case Some(BlankIds) => Success({})
    case Some(Ids(ids)) => Success(ids)
    case Some(OtherJson(doc)) => IdsOf(doc)
    case Some(NotJson) => Failure(UnreadableIdFile)
  }

  /** A missing or blank id file loads as the empty set; a written one loads as what was written. */
  lemma LoadIdsOnFreshRepository(f: Option<IdFile>, written: set<string>)
    ensures f.None? || f == Some(BlankIds) ==> LoadIds(f, {}) == Success({})
    ensures LoadIds(Some(Ids(written)), {}) == Success(written)
  {
  }

  // ---- The state file ----

  /** An `int = 0` field: absent reads as the default, a JSON number without a fractional part as its value. */
  function IntOr(m: map<string, Json>, key: string, d: int): (r: Option<int>)
    ensures key !in m ==> r == Some(d)
    ensures r.Some? && key in m ==> m[key].JNumber? && m[key].n == r.value as real
  {
    if key !in m then Some(d)
    else if m[key].JNumber? && m[key].n == m[key].n.Floor as real then Some(m[key].n.Floor)
    else None
  }

  /** A `set[str]` field defaulting to the empty set: only a JSON list of strings validates. */
  function StringSetOr(m: map<string, Json>, key: string): (r: Option<set<string>>)
    ensures key !in m ==> r == Some({})
    ensures r.Some? && key in m ==> m[key].JArray?
  {
    if key !in m then Some({})
    else if !m[key].JArray? then None
    else
      match JsonFields.Strings(m[key].items)
      case None => None
      case Some(xs) => Some(set i | 0 <= i < |xs| :: xs[i])
  }

  /**
   * A `datetime | None = None` field: absent and null read as None, a string
   * only when it is a date-time text.
   */
  function OptionalDateTime(m: map<string, Json>, key: string): (r: Option<Option<DateTimeText>>)
    ensures r.Some? <==> key !in m || m[key].JNull? || (m[key].JString? && IsDateTimeText(m[key].s))
    ensures key !in m ==> r == Some(None)
    ensures r.Some? && r.value.Some? ==> key in m && m[key] == JString(r.value.value)
  {
    if key !in m || m[key].JNull? then Some(None)
    else if m[key].JString? && IsDateTimeText(m[key].s) then Some(Some(m[key].s))
    else None
  }

  /**
   * `AgentState.model_validate_json(raw)` for a decoded document, without the
   * seen set (which `load_state` replaces, but which must still validate).
   * Timestamps are modelled by their text, which must be a date-time text.
   */
  function LoadSnapshot(doc: Json): (r: Result<StateSnapshot, RepoError>)
    ensures r.Failure? ==> r.error == UnreadableState
    ensures !doc.JObject? ==> r.Failure?
    ensures doc == JObject(map[]) ==> r == Success(DefaultSnapshot)
    ensures r.Success? ==> && OptionalDateTime(doc.fields, "last_heartbeat").Some?
                           && OptionalDateTime(doc.fields, "last_post_at").Some?
                           && OptionalDateTime(doc.fields, "last_comment_at").Some?
  {
    if !doc.JObject? then Failure(UnreadableState)
    else
      var m := doc.fields;
      match (OptionalDateTime(m, "last_heartbeat"), IntOr(m, "posts_today", 0),
             IntOr(m, "comments_today", 0), OptionalDateTime(m, "last_post_at"),
             OptionalDateTime(m, "last_comment_at"), StringSetOr(m, "seen_post_ids"),
             StringSetOr(m, "subscribed_submolts"))
      case (Some(beat), Some(posts), Some(comments), Some(postAt), Some(commentAt), Some(_), Some(subs)) =>
        Success(StateSnapshot(beat, posts, comments, postAt, commentAt, subs))
      case _ => Failure(UnreadableState)
  }

  /** A timestamp field holding any other string makes `load_state` raise. */
  lemma LoadRejectsNonDateTime(doc: Json, key: string)
    requires doc.JObject? && key in {"last_heartbeat", "last_post_at", "last_comment_at"}
    requires key in doc.fields && doc.fields[key].JString? && !IsDateTimeText(doc.fields[key].s)
    ensures LoadSnapshot(doc) == Failure(UnreadableState)
  {
  }

  /** An ISO 8601 timestamp in UTC on a leap day validates. */
  lemma IsoTextValidates()
    ensures IsDateTimeText("2024-02-29T12:30:00Z")
  {
    var iso := "2024-02-29T12:30:00Z";
    LeapDayValidates();
    HalfPastTwelveValidates();
    assert iso[..10] == "2024-02-29";
    var time := iso[11..];
    assert time[..8] == "12:30:00" && time[8..] == "Z";
    assert IsClockText(time[..8]) && IsZoneText(time[8..]);
  }

  lemma LeapDayValidates()
    ensures IsDateText("2024-02-29")
  {
    DateFields("2024-02-29");
  }

  lemma HalfPastTwelveValidates()
    ensures IsClockText("12:30:00")
  {
    ClockFields("12:30:00");
  }

  /** The text `str(datetime)` gives, which `save_state` writes, validates. */
  lemma WrittenTextValidates()
    ensures IsDateTimeText("2024-05-01 08:15:42.123456")
  {
    var written := "2024-05-01 08:15:42.123456";
    MayDayValidates();
    MorningClockValidates();
    assert written[..10] == "2024-05-01";
    var time := written[11..];
    assert time[..15] == "08:15:42.123456" && time[15..] == "";
    assert IsClockText(time[..15]) && IsZoneText(time[15..]);
  }

  lemma MayDayValidates()
    ensures IsDateText("2024-05-01")
  {
    DateFields("2024-05-01");
  }

  lemma MorningClockValidates()
    ensures IsClockText("08:15:42.123456")
  {
    var clock := "08:15:42.123456";
    ClockFields(clock);
    assert clock[9..] == "123456";
  }

  /** A Unix time written as text validates. */
  lemma UnixTextValidates()
    ensures IsDateTimeText("1714551342.5")
  {
    var unix := "1714551342.5";
    var k := 10;
    assert unix[..k] == "1714551342" && unix[k + 1..] == "5";
    assert AllDigits(unix[..k]) && unix[k] == '.' && AllDigits(unix[k + 1..]);
    assert unix[0] != '-' && IsUnixTimeText(unix);
  }

  /** The 29th of February of a common year is refused. */
  lemma MissingDayRejected()
    ensures !IsDateTimeText("2023-02-29")
  {
    var missing := "2023-02-29";
    DateFields(missing);
    forall k | 1 <= k <= |missing|
      ensures !(AllDigits(missing[..k]) && (k == |missing| || (missing[k] == '.' && AllDigits(missing[k + 1..]))))
    {
      if k > 4 {
        assert missing[..k][4] == '-';
      }
    }
  }

  /** Free text is refused. */
  lemma FreeTextRejected()
    ensures !IsDateTimeText("yesterday")
  {
    var text := "yesterday";
    forall k | 1 <= k <= |text|
      ensures !AllDigits(text[..k])
    {
      assert text[..k][0] == 'y';
    }
  }

  /** The hour, minute and second fields of a clock text. */
  lemma ClockFields(clock: string)
    requires |clock| >= 8 && AllDigits(clock[..2]) && AllDigits(clock[3..5]) && AllDigits(clock[6..8])
    ensures DigitsValue(clock[..2]) == 10 * DigitOf(clock[0]) + DigitOf(clock[1])
    ensures DigitsValue(clock[3..5]) == 10 * DigitOf(clock[3]) + DigitOf(clock[4])
    ensures DigitsValue(clock[6..8]) == 10 * DigitOf(clock[6]) + DigitOf(clock[7])
  {
    TwoDigits(clock[..2]);
    TwoDigits(clock[3..5]);
    TwoDigits(clock[6..8]);
  }

  function DigitOf(c: char): int {
    (c as int) - ('0' as int)
  }

  lemma TwoDigits(s: string)
    requires |s| == 2 && AllDigits(s)
    ensures DigitsValue(s) == 10 * DigitOf(s[0]) + DigitOf(s[1])
  {
    assert s[..1][0] == s[0];
  }

  lemma FourDigits(s: string)
    requires |s| == 4 && AllDigits(s)
    ensures DigitsValue(s) == 1000 * DigitOf(s[0]) + 100 * DigitOf(s[1]) + 10 * DigitOf(s[2]) + DigitOf(s[3])
  {
    assert s[..3][..2] == s[..2];
    TwoDigits(s[..2]);
  }

  /** The year, month and day fields of a date text. */
  lemma DateFields(date: string)
    requires |date| == 10 && AllDigits(date[..4]) && AllDigits(date[5..7]) && AllDigits(date[8..])
    ensures DigitsValue(date[..4]) == 1000 * DigitOf(date[0]) + 100 * DigitOf(date[1]) + 10 * DigitOf(date[2])
                                      + DigitOf(date[3])
    ensures DigitsValue(date[5..7]) == 10 * DigitOf(date[5]) + DigitOf(date[6])
    ensures DigitsValue(date[8..]) == 10 * DigitOf(date[8]) + DigitOf(date[9])
  {
    FourDigits(date[..4]);
    TwoDigits(date[5..7]);
    TwoDigits(date[8..]);
  }

  /** The fields of a snapshot as JSON, the subscribed set rendered as `subs`. */
  function SnapshotJson(snap: StateSnapshot, subs: Json): (j: Json)
    ensures j.JObject? && j.fields.Keys == StateKeys
    ensures j.fields["subscribed_submolts"] == subs
  {
    JObject(map[
      "last_heartbeat" := OptionalJson(snap.lastHeartbeat),
      "posts_today" := JNumber(snap.postsToday as real),
      "comments_today" := JNumber(snap.commentsToday as real),
      "last_post_at" := OptionalJson(snap.lastPostAt),
      "last_comment_at" := OptionalJson(snap.lastCommentAt),
      "subscribed_submolts" := subs])
  }

  const StateKeys: set<string> :=
    {"last_heartbeat", "posts_today", "comments_today", "last_post_at", "last_comment_at", "subscribed_submolts"}

  /**
   * What `save_state` writes: `json.dumps(state.model_dump(exclude={"seen_post_ids"}), default=str)`.
   * `json` cannot encode a Python set, so `default=str` writes the set's text
   * (`setText`, e.g. "set()") in place of a list.
   */
  function DumpAsWritten(snap: StateSnapshot, setText: string): (j: Json)
    ensures j.JObject? && j.fields.Keys == StateKeys
    ensures j.fields["subscribed_submolts"] == JString(setText)
  {
    SnapshotJson(snap, JString(setText))
  }

  /** Whatever the state, the file `save_state` writes makes `load_state` raise. */
  lemma SavedStateNeverLoads(snap: StateSnapshot, setText: string)
    ensures LoadSnapshot(DumpAsWritten(snap, setText)) == Failure(UnreadableState)
  {
    var m := DumpAsWritten(snap, setText).fields;
    assert StringSetOr(m, "subscribed_submolts").None?;
  }

  /**
   * The rendering `save_state` evidently intends (`state.model_dump_json(exclude=...)`):
   * the subscribed set as a JSON list of its members, in the enumeration order `order`.
   */
  function Dump(snap: StateSnapshot, order: seq<string>): (j: Json)
    requires forall x :: x in snap.subscribedSubmolts <==> x in order
    ensures j.JObject? && j.fields.Keys == StateKeys
    ensures j.fields["subscribed_submolts"] == JArray(JsonStrings(order))
  {
    SnapshotJson(snap, JArray(JsonStrings(order)))
  }

  lemma {:induction false} StringsOfJsonStrings(xs: seq<string>)
    ensures JsonFields.Strings(JsonStrings(xs)) == Some(xs)
    decreases |xs|
  {
    if xs != [] {
      StringsOfJsonStrings(xs[1..]);
      var js := JsonStrings(xs);
      assert js[1..] == JsonStrings(xs[1..]);
      assert js[0] == JString(xs[0]);
      assert [xs[0]] + xs[1..] == xs;
    }
  }

  /** With the intended rendering, `load_state` reads back exactly what `save_state` wrote. */
  lemma DumpRoundTrip(snap: StateSnapshot, order: seq<string>)
    requires forall x :: x in snap.subscribedSubmolts <==> x in order
    ensures LoadSnapshot(Dump(snap, order)) == Success(snap)
  {
    var m := Dump(snap, order).fields;
    StringListLoadsBack(m, "subscribed_submolts", order, snap.subscribedSubmolts);
    DateTimeLoadsBack(m, "last_heartbeat", snap.lastHeartbeat);
    DateTimeLoadsBack(m, "last_post_at", snap.lastPostAt);
    DateTimeLoadsBack(m, "last_comment_at", snap.lastCommentAt);
    assert (snap.postsToday as real).Floor == snap.postsToday;
    assert (snap.commentsToday as real).Floor == snap.commentsToday;
  }

  /** A timestamp field written as its text, or as null, validates as that timestamp. */
  lemma DateTimeLoadsBack(m: map<string, Json>, key: string, t: Option<DateTimeText>)
    requires key in m && m[key] == OptionalJson(t)
    ensures OptionalDateTime(m, key) == Some(t)
  {
  }

  /** A set field written as a list of its members validates as that set. */
  lemma StringListLoadsBack(m: map<string, Json>, key: string, order: seq<string>, s: set<string>)
    requires key in m && m[key] == JArray(JsonStrings(order))
    requires forall x :: x in s <==> x in order
    ensures StringSetOr(m, key) == Some(s)
  {
    StringsOfJsonStrings(order);
    var listed := set i | 0 <= i < |order| :: order[i];
    assert StringSetOr(m, key) == Some(listed);
    forall x | x in s
      ensures x in listed
    {
      var i :| 0 <= i < |order| && order[i] == x;
    }
    assert listed == s;
  }

  function OptionalJson(s: Option<string>): Json {
    match s
    case None => JNull
    case Some(v) => JString(v)
  }

  /** The object `log_action` writes as one line (`id` is not written). */
  function Encode(a: ActionLog): (j: Json)
    ensures j.JObject? && j.fields.Keys == {"action_type", "target_id", "details", "created_at"}
    ensures j.fields["action_type"] == JString(a.actionType.Value())
  {
    JObject(map[
      "action_type" := JString(a.actionType.Value()),
      "target_id" := OptionalJson(a.targetId),
      "details" := OptionalJson(a.details),
      "created_at" := JString(a.createdAt)])
  }

  /** The lines a sequence of `log_action` calls appends. */
  function Written(entries: seq<ActionLog>): (ls: seq<LogLine>)
    ensures |ls| == |entries|
    decreases |entries|
  {
    if entries == [] then []
    else Written(entries[..|entries| - 1]) + [Entry(Encode(entries[|entries| - 1]))]
  }

  lemma WrittenOne(a: ActionLog)
    ensures Written([a]) == [Entry(Encode(a))]
  {
    assert [a][..0] == [];
  }

  /** Concatenation regroups freely; stated once so that callers need not re-derive it. */
  lemma AppendAssoc<T>(a: seq<T>, b: seq<T>, c: seq<T>)
    ensures a + b + c == a + (b + c)
  {
  }

  lemma AppendNil<T>(a: seq<T>)
    ensures a + [] == a && [] + a == a
  {
  }

  /** A sequence one longer than `a` that starts with `a` is `a` and its last element. */
  lemma ExtendedByLast<T>(a: seq<T>, b: seq<T>)
    requires |b| == |a| + 1 && b[..|a|] == a
    ensures b == a + [b[|a|]]
  {
    assert b == b[..|a|] + [b[|a|]];
  }

  /** A sequence that starts with `a` is `a` followed by the rest. */
  lemma ExtendedBy<T>(a: seq<T>, b: seq<T>)
    requires |a| <= |b| && b[..|a|] == a
    ensures b == a + b[|a|..]
  {
    assert b == b[..|a|] + b[|a|..];
  }

  /** The last entry of a non-empty run writes the last line. */
  lemma WrittenLast(entries: seq<ActionLog>)
    requires entries != []
    ensures Written(entries) == Written(entries[..|entries| - 1]) + [Entry(Encode(entries[|entries| - 1]))]
  {
  }

  /** Two runs of `log_action` write what one run over both would. */
  lemma {:induction false} WrittenConcat(xs: seq<ActionLog>, ys: seq<ActionLog>)
    ensures Written(xs + ys) == Written(xs) + Written(ys)
    decreases |ys|
  {
    if ys != [] {
      var init, last := ys[..|ys| - 1], ys[|ys| - 1];
      WrittenConcat(xs, init);
      WrittenLast(xs + ys);
      assert (xs + ys)[..|xs + ys| - 1] == xs + init;
      assert (xs + ys)[|xs + ys| - 1] == last;
      AppendAssoc(Written(xs), Written(init), [Entry(Encode(last))]);
      calc {
        Written(xs + ys);
        Written(xs + init) + [Entry(Encode(last))];
        (Written(xs) + Written(init)) + [Entry(Encode(last))];
        Written(xs) + (Written(init) + [Entry(Encode(last))]);
        Written(xs) + Written(ys);
      }
    } else {
      assert xs + ys == xs;
    }
  }

  predicate StartsWith(s: string, prefix: string) {
    |prefix| <= |s| && s[..|prefix|] == prefix
  }

  // ---- get_today_action_count ----

  /**
   * What one line adds to the count. A line that is not a JSON object fails on
   * `.get`; a matching entry whose `created_at` is not a string fails on
   * `.startswith`; `created_at` is only read when the type matches.
   */
  function CountStep(line: LogLine, t: ActionType, today: string): (r: Result<nat, RepoError>)
    ensures r.Success? ==> r.value <= 1
    ensures r.Failure? ==> r.error == UnreadableLogLine
    ensures line.BlankLine? ==> r == Success(0)
  {
    match line
    case BlankLine => Success(0)
    case Garbled => Failure(UnreadableLogLine)
    case Entry(j) =>
      if !j.JObject? then Failure(UnreadableLogLine)
      else if "action_type" in j.fields && j.fields["action_type"] == JString(t.Value()) then
        var created := if "created_at" in j.fields then j.fields["created_at"] else JString("");
        if !created.JString? then Failure(UnreadableLogLine)
        else if StartsWith(created.s, today) then Success(1) else Success(0)
      else Success(0)
  }

  /** The count over a whole log, line by line in file order; the first unreadable line aborts it. */
  function CountToday(lines: seq<LogLine>, t: ActionType, today: string): (r: Result<nat, RepoError>)
    ensures r.Success? ==> r.value <= |lines|
    ensures r.Failure? ==> r.error == UnreadableLogLine
    decreases |lines|
  {
    if lines == [] then Success(0)
    else
      var before := CountToday(lines[..|lines| - 1], t, today);
      var step := CountStep(lines[|lines| - 1], t, today);
      if before.Failure? then before
      else if step.Failure? then step
      else Success(before.value + step.value)
  }

  /** Extending a readable prefix of the log by one line. */
  lemma CountTodayNext(lines: seq<LogLine>, t: ActionType, today: string, i: nat, count: nat)
    requires i < |lines| && CountToday(lines[..i], t, today) == Success(count)
    ensures CountToday(lines[..i + 1], t, today)
            == if CountStep(lines[i], t, today).Failure? then Failure(UnreadableLogLine)
               else Success(count + CountStep(lines[i], t, today).value)
  {
    assert lines[..i + 1][..i] == lines[..i];
  }

  /** Once a prefix of the log is unreadable, so is every longer prefix. */
  lemma {:induction false} CountFailureSticks(lines: seq<LogLine>, t: ActionType, today: string, i: nat)
    requires i <= |lines| && CountToday(lines[..i], t, today).Failure?
    ensures CountToday(lines, t, today) == Failure(UnreadableLogLine)
    decreases |lines| - i
  {
    if i == |lines| {
      assert lines[..i] == lines;
    } else {
      assert lines[..|lines| - 1][..i] == lines[..i];
      CountFailureSticks(lines[..|lines| - 1], t, today, i);
    }
  }

  /** The entries of type `t` whose timestamp text starts with `today`. */
  function Matching(entries: seq<ActionLog>, t: ActionType, today: string): (n: nat)
    ensures n <= |entries|
    decreases |entries|
  {
    if entries == [] then 0
    else
      var a := entries[|entries| - 1];
      Matching(entries[..|entries| - 1], t, today)
        + (if a.actionType == t && StartsWith(a.createdAt, today) then 1 else 0)
  }

  /** A line written by `log_action` counts exactly when its type and day match. */
  lemma CountStepOfWritten(a: ActionLog, t: ActionType, today: string)
    ensures CountStep(Entry(Encode(a)), t, today)
            == Success(if a.actionType == t && StartsWith(a.createdAt, today) then 1 else 0)
  {
    ActionTypeRoundTrip(a.actionType, t);
  }

  /** Appending an entry raises a readable count by one exactly when the entry matches. */
  lemma CountAfterLogAction(lines: seq<LogLine>, a: ActionLog, t: ActionType, today: string)
    ensures var before := CountToday(lines, t, today);
            CountToday(lines + [Entry(Encode(a))], t, today)
            == if before.Failure? then before
               else Success(before.value + if a.actionType == t && StartsWith(a.createdAt, today) then 1 else 0)
  {
    assert (lines + [Entry(Encode(a))])[..|lines|] == lines;
    CountStepOfWritten(a, t, today);
  }

  /** On a log written only by `log_action`, the count is the number of matching entries. */
  lemma {:induction false} CountOfWrittenLog(entries: seq<ActionLog>, t: ActionType, today: string)
    ensures CountToday(Written(entries), t, today) == Success(Matching(entries, t, today))
    decreases |entries|
  {
    if entries != [] {
      var init := entries[..|entries| - 1];
      CountOfWrittenLog(init, t, today);
      CountAfterLogAction(Written(init), entries[|entries| - 1], t, today);
    }
  }

  // ---- get_action_target_ids ----

  /** What one line adds: the `target_id` of an entry of type `t`, when it is truthy. */
  function TargetStep(line: LogLine, t: ActionType): (r: Result<seq<Json>, RepoError>)
    ensures r.Success? ==> |r.value| <= 1 && forall k :: 0 <= k < |r.value| ==> Truthy(r.value[k])
    ensures r.Failure? ==> r.error == UnreadableLogLine
  {
    match line
    case BlankLine => Success([])
    case Garbled => Failure(UnreadableLogLine)
    case Entry(j) =>
      if !j.JObject? then Failure(UnreadableLogLine)
      else if "action_type" in j.fields && j.fields["action_type"] == JString(t.Value())
              && "target_id" in j.fields && Truthy(j.fields["target_id"])
      then Success([j.fields["target_id"]])
      else Success([])
  }

  /** The target ids over the whole log, in log order. */
  function TargetIds(lines: seq<LogLine>, t: ActionType): (r: Result<seq<Json>, RepoError>)
    ensures r.Success? ==> |r.value| <= |lines| && forall k :: 0 <= k < |r.value| ==> Truthy(r.value[k])
    ensures r.Failure? ==> r.error == UnreadableLogLine
    decreases |lines|
  {
    if lines == [] then Success([])
    else
      var before := TargetIds(lines[..|lines| - 1], t);
      var step := TargetStep(lines[|lines| - 1], t);
      if before.Failure? then before
      else if step.Failure? then step
      else Success(before.value + step.value)
  }

  /** Extending a readable prefix of the log by one line. */
  lemma TargetIdsNext(lines: seq<LogLine>, t: ActionType, i: nat, ids: seq<Json>)
    requires i < |lines| && TargetIds(lines[..i], t) == Success(ids)
    ensures TargetIds(lines[..i + 1], t)
            == if TargetStep(lines[i], t).Failure? then Failure(UnreadableLogLine)
               else Success(ids + TargetStep(lines[i], t).value)
  {
    assert lines[..i + 1][..i] == lines[..i];
  }

  lemma {:induction false} TargetFailureSticks(lines: seq<LogLine>, t: ActionType, i: nat)
    requires i <= |lines| && TargetIds(lines[..i], t).Failure?
    ensures TargetIds(lines, t) == Failure(UnreadableLogLine)
    decreases |lines| - i
  {
    if i == |lines| {
      assert lines[..i] == lines;
    } else {
      assert lines[..|lines| - 1][..i] == lines[..i];
      TargetFailureSticks(lines[..|lines| - 1], t, i);
    }
  }

  /** The non-empty target ids of the entries of type `t`, in order. */
  function TargetsOf(entries: seq<ActionLog>, t: ActionType): (ids: seq<string>)
    ensures |ids| <= |entries|
    decreases |entries|
  {
    if entries == [] then []
    else
      var a := entries[|entries| - 1];
      TargetsOf(entries[..|entries| - 1], t)
        + (if a.actionType == t && a.targetId.Some? && a.targetId.value != "" then [a.targetId.value] else [])
  }
  lemma TargetsOfOne(a: ActionLog, t: ActionType)
    ensures TargetsOf([a], t) == if a.actionType == t && a.targetId.Some? && a.targetId.value != "" then [a.targetId.value] else []
  {
    assert [a][..0] == [];
  }

  lemma {:induction false} TargetsOfConcat(xs: seq<ActionLog>, ys: seq<ActionLog>, t: ActionType)
    ensures TargetsOf(xs + ys, t) == TargetsOf(xs, t) + TargetsOf(ys, t)
    decreases |ys|
  {
    if ys != [] {
      var init := ys[..|ys| - 1];
      TargetsOfConcat(xs, init, t);
      assert (xs + ys)[..|xs + ys| - 1] == xs + init;
      assert (xs + ys)[|xs + ys| - 1] == ys[|ys| - 1];
    } else {
      assert xs + ys == xs;
    }
  }

  /** The ids as the JSON strings the log holds. */
  function JsonStrings(ids: seq<string>): (js: seq<Json>)
    ensures |js| == |ids| && forall k :: 0 <= k < |ids| ==> js[k] == JString(ids[k])
    decreases |ids|
  {
    if ids == [] then [] else JsonStrings(ids[..|ids| - 1]) + [JString(ids[|ids| - 1])]
  }

  /** A line written by `log_action` yields its target id exactly when the type matches and the id is non-empty. */
  lemma TargetStepOfWritten(a: ActionLog, t: ActionType)
    ensures TargetStep(Entry(Encode(a)), t)
            == Success(if a.actionType == t && a.targetId.Some? && a.targetId.value != ""
                       then [JString(a.targetId.value)] else [])
  {
    ActionTypeRoundTrip(a.actionType, t);
  }

  lemma JsonStringsConcat(xs: seq<string>, ys: seq<string>)
    ensures JsonStrings(xs + ys) == JsonStrings(xs) + JsonStrings(ys)
  {
    assert forall k :: 0 <= k < |xs + ys| ==> JsonStrings(xs + ys)[k] == (JsonStrings(xs) + JsonStrings(ys))[k];
  }

  /** Reading one more line after a prefix of the log. */
  lemma TargetIdsSnoc(lines: seq<LogLine>, line: LogLine, t: ActionType)
    ensures TargetIds(lines + [line], t)
            == if TargetIds(lines, t).Failure? then TargetIds(lines, t)
               else if TargetStep(line, t).Failure? then TargetStep(line, t)
               else Success(TargetIds(lines, t).value + TargetStep(line, t).value)
  {
    assert (lines + [line])[..|lines|] == lines;
  }

  /** On a log written only by `log_action`, the ids read back are the entries' non-empty target ids. */
  lemma {:induction false} TargetIdsOfWrittenLog(entries: seq<ActionLog>, t: ActionType)
    ensures TargetIds(Written(entries), t) == Success(JsonStrings(TargetsOf(entries, t)))
    decreases |entries|
  {
    if entries != [] {
      var init, a := entries[..|entries| - 1], entries[|entries| - 1];
      var more := if a.actionType == t && a.targetId.Some? && a.targetId.value != "" then [a.targetId.value] else [];
      TargetIdsOfWrittenLog(init, t);
      TargetIdsSnoc(Written(init), Entry(Encode(a)), t);
      TargetStepOfWritten(a, t);
      assert JsonStrings(more) == if more == [] then [] else [JString(a.targetId.value)];
      JsonStringsConcat(TargetsOf(init, t), more);
      calc {
        TargetIds(Written(entries), t);
        TargetIds(Written(init) + [Entry(Encode(a))], t);
        Success(JsonStrings(TargetsOf(init, t)) + JsonStrings(more));
        Success(JsonStrings(TargetsOf(entries, t)));
      }
    }
  }

  // ---- The repository ----

  class FileStateRepository {
    var seenIds: set<string>
    var repliedIds: set<string>
    var seenFile: Option<IdFile>
    var repliedFile: Option<IdFile>
    var stateFile: Option<StateFile>
    var actionsFile: Option<seq<LogLine>>

    /** `FileStateRepository(data_dir)` over a data directory holding the given files. */
    constructor (seenFile: Option<IdFile>, repliedFile: Option<IdFile>,
                 stateFile: Option<StateFile>, actionsFile: Option<seq<LogLine>>)
      ensures seenIds == {} && repliedIds == {}
      ensures this.seenFile == seenFile && this.repliedFile == repliedFile
      ensures this.stateFile == stateFile && this.actionsFile == actionsFile
    {
      seenIds := {};
      repliedIds := {};
      this.seenFile := seenFile;
      this.repliedFile := repliedFile;
      this.stateFile := stateFile;
      this.actionsFile := actionsFile;
    }

    /** The lines of the action log; a missing file reads as no lines. */
    function Lines(): seq<LogLine>
      reads this`actionsFile
    {
      actionsFile.GetOr([])
    }

    /**
     * `initialize`: load the seen set, then the replied set, then create an
     * empty action log if there is none. An unreadable id file raises and
     * stops the remaining steps.
     */
    method Initialize() returns (r: Result<(), RepoError>)
      modifies this`seenIds, this`repliedIds, this`actionsFile
      ensures var s := LoadIds(seenFile, old(seenIds));
              var p := LoadIds(repliedFile, old(repliedIds));
              && (r.Success? <==> s.Success? && p.Success?)
              && seenIds == (if s.Success? then s.value else old(seenIds))
              && repliedIds == (if s.Success? && p.Success? then p.value else old(repliedIds))
              && actionsFile == (if r.Success? then Some(old(Lines())) else old(actionsFile))
    {
      var s := LoadIds(seenFile, seenIds);
      if s.Failure? {
        return Failure(s.error);
      }
      seenIds := s.value;
      var p := LoadIds(repliedFile, repliedIds);
      if p.Failure? {
        return Failure(p.error);
      }
      repliedIds := p.value;
      if actionsFile.None? {
        actionsFile := Some([]);
      }
      r := Success(());
    }

    /**
     * `load_state`: the saved fields (defaults when the file is missing or
     * blank) with the in-memory seen set; a file that does not validate raises.
     */
    method LoadState() returns (r: Result<AgentState, RepoError>)
      ensures r.Failure? <==> stateFile == Some(NotJsonState)
                              || (stateFile.Some? && stateFile.value.StateDoc? && LoadSnapshot(stateFile.value.doc).Failure?)
      ensures r.Success? ==> fresh(r.value) && r.value.seenPostIds == seenIds
      ensures r.Success? ==>
                r.value.Snapshot()
                == (if stateFile.Some? && stateFile.value.StateDoc? then LoadSnapshot(stateFile.value.doc).value else DefaultSnapshot)
    {
      if stateFile.None? || stateFile.value.BlankState? {
        var st := new AgentState(DefaultSnapshot, seenIds);
        return Success(st);
      }
      if stateFile.value.NotJsonState? {
        return Failure(UnreadableState);
      }
      var loaded := LoadSnapshot(stateFile.value.doc);
      if loaded.Failure? {
        return Failure(loaded.error);
      }
      var st := new AgentState(loaded.value, seenIds);
      r := Success(st);
    }

    /**
     * `save_state`: writes every field except the seen set, with the
     * subscribed set rendered as its text, so `load_state` cannot read it back.
     */
    method SaveState(state: AgentState)
      modifies this`stateFile
      ensures stateFile.Some? && stateFile.value.StateDoc?
      ensures exists setText :: stateFile.value.doc == DumpAsWritten(state.Snapshot(), setText)
      ensures LoadSnapshot(stateFile.value.doc).Failure?
    {
      var setText: string :| true;
      stateFile := Some(StateDoc(DumpAsWritten(state.Snapshot(), setText)));
      SavedStateNeverLoads(state.Snapshot(), setText);
    }

    predicate IsPostSeen(postId: string)
      reads this
    {
      postId in seenIds
    }

    /** `mark_post_seen`: adds the id and rewrites the seen file with the whole set. */
    method MarkPostSeen(postId: string)
      modifies this`seenIds, this`seenFile
      ensures seenIds == old(seenIds) + {postId}
      ensures seenFile == Some(Ids(seenIds))
      ensures IsPostSeen(postId) && forall q :: q != postId ==> (IsPostSeen(q) <==> old(IsPostSeen(q)))
    {
      seenIds := seenIds + {postId};
      seenFile := Some(Ids(seenIds));
    }

    predicate IsCommentReplied(commentId: string)
      reads this
    {
      commentId in repliedIds
    }

    /** `mark_comment_replied`: adds the id and rewrites the replied file with the whole set. */
    method MarkCommentReplied(commentId: string)
      modifies this`repliedIds, this`repliedFile
      ensures repliedIds == old(repliedIds) + {commentId}
      ensures repliedFile == Some(Ids(repliedIds))
      ensures IsCommentReplied(commentId)
      ensures forall q :: q != commentId ==> (IsCommentReplied(q) <==> old(IsCommentReplied(q)))
    {
      repliedIds := repliedIds + {commentId};
      repliedFile := Some(Ids(repliedIds));
    }

    /** `log_action`: appends one line, creating the file if it is missing. */
    method LogAction(a: ActionLog)
      modifies this`actionsFile
      ensures actionsFile == Some(old(Lines()) + [Entry(Encode(a))])
    {
      actionsFile := Some(Lines() + [Entry(Encode(a))]);
    }

    /** `get_today_action_count(t)` with `today` the text of `date.today().isoformat()`. */
    method GetTodayActionCount(t: ActionType, today: string) returns (r: Result<nat, RepoError>)
      ensures actionsFile.None? ==> r == Success(0)
      ensures actionsFile.Some? ==> r == CountToday(actionsFile.value, t, today)
    {
      if actionsFile.None? {
        return Success(0);
      }
      var lines := actionsFile.value;
      var count := 0;
      var i := 0;
      while i < |lines|
        invariant 0 <= i <= |lines|
        invariant CountToday(lines[..i], t, today) == Success(count)
      {
        CountTodayNext(lines, t, today, i, count);
        var step := CountStep(lines[i], t, today);
        if step.Failure? {
          CountFailureSticks(lines, t, today, i + 1);
          return Failure(UnreadableLogLine);
        }
        count := count + step.value;
        i := i + 1;
      }
      assert lines[..i] == lines;
      r := Success(count);
    }

    /** `get_action_target_ids(t)`. */
    method GetActionTargetIds(t: ActionType) returns (r: Result<seq<Json>, RepoError>)
      ensures actionsFile.None? ==> r == Success([])
      ensures actionsFile.Some? ==> r == TargetIds(actionsFile.value, t)
    {
      if actionsFile.None? {
        return Success([]);
      }
      var lines := actionsFile.value;
      var ids: seq<Json> := [];
      var i := 0;
      while i < |lines|
        invariant 0 <= i <= |lines|
        invariant TargetIds(lines[..i], t) == Success(ids)
      {
        TargetIdsNext(lines, t, i, ids);
        var step := TargetStep(lines[i], t);
        if step.Failure? {
          TargetFailureSticks(lines, t, i + 1);
          return Failure(UnreadableLogLine);
        }
        ids := ids + step.value;
        i := i + 1;
      }
      assert lines[..i] == lines;
      r := Success(ids);
    }
  }
}
