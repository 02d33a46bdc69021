/** The list filter and its compilation to a parameterised WHERE clause
    (buildWhere and splitStatuses in internal/store/store.go). */
module Filters {
  import opened Tasks

  /** Empty strings and a zero parent mean "not constrained" (a zero parent: top level). */
  datatype ListFilter = ListFilter(
    name: string,
    command: string,
    kind: string,
    status: string,
    worker: string,
    enabled: string,
    parentId: int)

  const NO_FILTER := ListFilter("", "", "", "", "", "", 0)

  function KindText(k: Schedule): string {
    match k
    case Once => "once"
    case Cron => "cron"
  }

  function StatusText(s: Status): string {
    match s
    case Pending => "pending"
    case Running => "running"
    case Success => "success"
    case Failed => "failed"
    case Dead => "dead"
    case Stopped => "stopped"
  }

  // ---- text helpers ----------------------------------------------------------------

  /** The characters strings.TrimSpace removes. */
  predicate IsSpace(c: char) {
    || '\U{0009}' <= c <= '\U{000d}' || c == ' ' || c == '\U{0085}' || c == '\U{00a0}' || c == '\U{1680}'
    || '\U{2000}' <= c <= '\U{200a}' || c == '\U{2028}' || c == '\U{2029}' || c == '\U{202f}' || c == '\U{205f}' || c == '\U{3000}'
  }

  function TrimSpace(s: string): string {
    if s == "" then s
    else if IsSpace(s[0]) then TrimSpace(s[1..])
    else if IsSpace(s[|s| - 1]) then TrimSpace(s[..|s| - 1])
    else s
  }

  /** Trimming takes off the blanks at both ends and nothing else. */
  lemma {:induction false} TrimIsExact(s: string) returns (i: nat, j: nat)
    ensures i <= j <= |s| && TrimSpace(s) == s[i..j]
    ensures forall k :: 0 <= k < i || j <= k < |s| ==> IsSpace(s[k])
    ensures i < j ==> !IsSpace(s[i]) && !IsSpace(s[j - 1])
  {
    i, j := 0, |s|;
    if s != "" {
      if IsSpace(s[0]) {
        i, j := TrimIsExact(s[1..]);
        assert s[1..][i..j] == s[i + 1..j + 1];
        forall k | 0 < k < i + 1 || j + 1 <= k < |s| ensures IsSpace(s[k]) {
          assert s[1..][k - 1] == s[k];
        }
        i, j := i + 1, j + 1;
      } else if IsSpace(s[|s| - 1]) {
        i, j := TrimIsExact(s[..|s| - 1]);
        assert s[..|s| - 1][i..j] == s[i..j];
      } else {
        assert s[0..|s|] == s;
      }
    }
  }

  /** What is left of a field without the blanks at its ends. */
  ghost predicate IsTrimmed(field: string, st: string) {
    exists i: nat, j: nat ::
      && i < j <= |field| && st == field[i..j] && !IsSpace(field[i]) && !IsSpace(field[j - 1])
      && forall k :: 0 <= k < i || j <= k < |field| ==> IsSpace(field[k])
  }

  lemma TrimmedIsTrimSpace(field: string, st: string)
    ensures IsTrimmed(field, st) <==> st != "" && TrimSpace(field) == st
  {
    var i, j := TrimIsExact(field);
    if a: nat, b: nat :|
      && a < b <= |field| && st == field[a..b] && !IsSpace(field[a]) && !IsSpace(field[b - 1])
      && forall k :: 0 <= k < a || b <= k < |field| ==> IsSpace(field[k])
    {
      assert i <= a && b <= j;
      assert a == i && b == j;
    }
    assert i < j ==> IsTrimmed(field, field[i..j]);
  }

  /** The fields between separators; an empty text has one empty field. */
  function Split(s: string, sep: char): (fields: seq<string>)
    ensures |fields| >= 1
  {
    if s == "" then [""]
    else if s[0] == sep then [""] + Split(s[1..], sep)
    else
      var rest := Split(s[1..], sep);
      [[s[0]] + rest[0]] + rest[1..]
  }

  function Join(fields: seq<string>, sep: char): string
    requires |fields| >= 1
  {
    if |fields| == 1 then fields[0] else fields[0] + [sep] + Join(fields[1..], sep)
  }

  /** Splitting cuts at every separator and loses nothing. */
  lemma {:induction false} SplitIsExact(s: string, sep: char)
    ensures Join(Split(s, sep), sep) == s
    ensures forall i :: 0 <= i < |Split(s, sep)| ==> sep !in Split(s, sep)[i]
  {
    if s != "" {
      SplitIsExact(s[1..], sep);
      var rest, all := Split(s[1..], sep), Split(s, sep);
      if s[0] == sep {
        assert all[1..] == rest;
        assert Join(all, sep) == "" + [sep] + Join(rest, sep);
      } else {
        assert all[1..] == rest[1..] && all[0] == [s[0]] + rest[0];
        assert s == [s[0]] + s[1..];
        if |rest| > 1 {
          assert Join(all, sep) == [s[0]] + rest[0] + [sep] + Join(rest[1..], sep);
        }
      }
    }
  }

  /** A status list names a status when one of its comma-separated fields, trimmed,
      is that status; blank fields name nothing. */
  ghost predicate Names(list: string, st: string) {
    st != "" && exists i :: 0 <= i < |Split(list, ',')| && TrimSpace(Split(list, ',')[i]) == st
  }

  /** The non-blank fields, trimmed, in order. */
  function NonBlank(fields: seq<string>): seq<string> {
    if fields == [] then []
    else
      var front, last := NonBlank(fields[..|fields| - 1]), TrimSpace(fields[|fields| - 1]);
      if last == "" then front else front + [last]
  }

  ghost predicate HasField(list: string, st: string) {
    exists i :: 0 <= i < |Split(list, ',')| && IsTrimmed(Split(list, ',')[i], st)
  }

  lemma NamesAreFields(list: string, st: string)
    ensures Names(list, st) <==> HasField(list, st)
  {
    var fields := Split(list, ',');
    forall i | 0 <= i < |fields| ensures IsTrimmed(fields[i], st) <==> st != "" && TrimSpace(fields[i]) == st {
      TrimmedIsTrimSpace(fields[i], st);
    }
  }

  /** The statuses of a filter: its fields, without the blanks at their ends, in order,
      unless nothing is left. */
  method SplitStatuses(filter: string) returns (out: seq<string>)
    ensures out == NonBlank(Split(filter, ','))
    ensures forall st :: st in out <==> HasField(filter, st)
    ensures forall st :: st in out <==> Names(filter, st)
  {
    out := [];
    if filter == "" {
      assert NonBlank([""]) == [];
      forall st ensures Names(filter, st) <==> HasField(filter, st) {
        NamesAreFields(filter, st);
      }
      return;
    }
    var parts := Split(filter, ',');
    assert parts[..|parts|] == parts;
    for i := 0 to |parts|
      invariant out == NonBlank(parts[..i])
      invariant forall st :: st in out <==> st != "" && exists j :: 0 <= j < i && TrimSpace(parts[j]) == st
    {
      assert parts[..i + 1][..i] == parts[..i];
      var p := TrimSpace(parts[i]);
      if p != "" {
        out := out + [p];
      }
    }
    forall st ensures Names(filter, st) <==> HasField(filter, st) {
      NamesAreFields(filter, st);
    }
  }

  // ---- what a filter means -----------------------------------------------------------

  /** LIKE, pattern first; the engine decides it. */
  type Like = (string, string) -> bool

  function Around(s: string): string {
    "%" + s + "%"
  }

  predicate NameOk(f: ListFilter, t: Task, like: Like) {
    f.name != "" ==> like(Around(f.name), t.name)
  }

  predicate CommandOk(f: ListFilter, t: Task, like: Like) {
    f.command != "" ==> like(Around(f.command), t.command)
  }

  predicate KindOk(f: ListFilter, t: Task) {
    f.kind != "" ==> KindText(t.kind) == f.kind
  }

  /** "done" stands for every outcome; otherwise the row's status is named, unless the
      list names nothing at all. */
  ghost predicate StatusOk(f: ListFilter, t: Task) {
    if f.status == "done" then t.status.Success? || t.status.Failed? || t.status.Dead?
    else (exists st :: Names(f.status, st)) ==> Names(f.status, StatusText(t.status))
  }

  predicate WorkerOk(f: ListFilter, t: Task, like: Like) {
    f.worker != "" ==> like(Around(f.worker), t.workerId)
  }

  predicate EnabledOk(f: ListFilter, t: Task) {
    (f.enabled == "true" ==> t.enabled) && (f.enabled == "false" ==> !t.enabled)
  }

  predicate ParentOk(f: ListFilter, t: Task) {
    t.parentId == if f.parentId > 0 then f.parentId else 0
  }

  ghost predicate Matches(f: ListFilter, t: Task, like: Like) {
    && NameOk(f, t, like) && CommandOk(f, t, like) && KindOk(f, t) && StatusOk(f, t)
    && WorkerOk(f, t, like) && EnabledOk(f, t) && ParentOk(f, t)
  }

  /** The same, column by column, as the list endpoint documents its parameters. */
  ghost predicate Accepts(f: ListFilter, t: Task, like: Like) {
    && (f.name == "" || like("%" + f.name + "%", t.name))
    && (f.command == "" || like("%" + f.command + "%", t.command))
    && (f.worker == "" || like("%" + f.worker + "%", t.workerId))
    && (f.kind == "" || (f.kind == "once" && t.kind.Once?) || (f.kind == "cron" && t.kind.Cron?))
    && (f.enabled == "true" ==> t.enabled) && (f.enabled == "false" ==> !t.enabled)
    && (if f.parentId > 0 then t.parentId == f.parentId else t.parentId == 0)
    && (if f.status == "done" then !t.status.Pending? && !t.status.Running? && !t.status.Stopped?
        else
          || (forall st :: !Names(f.status, st))
          || (t.status.Pending? && Names(f.status, "pending")) || (t.status.Running? && Names(f.status, "running"))
          || (t.status.Success? && Names(f.status, "success")) || (t.status.Failed? && Names(f.status, "failed"))
          || (t.status.Dead? && Names(f.status, "dead")) || (t.status.Stopped? && Names(f.status, "stopped")))
  }

  /** What the clauses are compiled from is what the parameters mean. */
  lemma MatchesIsAccepts(f: ListFilter, t: Task, like: Like)
    ensures Matches(f, t, like) == Accepts(f, t, like)
  {
    assert KindOk(f, t) <==> f.kind == "" || (f.kind == "once" && t.kind.Once?) || (f.kind == "cron" && t.kind.Cron?);
    assert StatusOk(f, t) <==>
        if f.status == "done" then !t.status.Pending? && !t.status.Running? && !t.status.Stopped?
        else (forall st :: !Names(f.status, st)) || Names(f.status, StatusText(t.status));
  }

  // ---- clauses and their arguments -----------------------------------------------------

  datatype Clause =
    | NameLike
    | CommandLike
    | KindIs
    | StatusIn(n: nat)
    | WorkerLike
    | EnabledIs(on: bool)
    | ParentIs
    | TopLevel

  datatype Arg = Text(text: string) | Num(num: int)

  /** How many placeholders a clause has. */
  function Placeholders(c: Clause): nat {
    match c
    case StatusIn(n) => n
    case EnabledIs(_) => 0
    case TopLevel => 0
    case _ => 1
  }

  predicate Holds(c: Clause, args: seq<Arg>, t: Task, like: Like)
    requires |args| == Placeholders(c)
  {
    match c
    case NameLike => args[0].Text? && like(args[0].text, t.name)
    case CommandLike => args[0].Text? && like(args[0].text, t.command)
    case KindIs => args[0] == Text(KindText(t.kind))
    case StatusIn(_) => Text(StatusText(t.status)) in args
    case WorkerLike => args[0].Text? && like(args[0].text, t.workerId)
    case EnabledIs(on) => t.enabled == on
    case ParentIs => args[0] == Num(t.parentId)
    case TopLevel => t.parentId == 0
  }

  /** The conjunction of the clauses, each taking its arguments from the left; None
      when the arguments do not fit the placeholders exactly. */
  function Evaluate(conds: seq<Clause>, args: seq<Arg>, t: Task, like: Like): Option<bool> {
    if conds == [] then
      if args == [] then Some(true) else None
    else
      var n := Placeholders(conds[0]);
      if |args| < n then None else
      var rest := Evaluate(conds[1..], args[n..], t, like);
      if rest.None? then None else Some(Holds(conds[0], args[..n], t, like) && rest.value)
  }

  lemma {:induction false} EvaluateAppend(conds: seq<Clause>, args: seq<Arg>, c: Clause, more: seq<Arg>, t: Task, like: Like)
    requires |more| == Placeholders(c) && Evaluate(conds, args, t, like).Some?
    ensures Evaluate(conds + [c], args + more, t, like)
            == Some(Evaluate(conds, args, t, like).value && Holds(c, more, t, like))
  {
    if conds == [] {
      assert conds + [c] == [c] && args + more == more;
      assert more[..|more|] == more && more[|more|..] == [] && [c][1..] == [];
    } else {
      var n := Placeholders(conds[0]);
      EvaluateAppend(conds[1..], args[n..], c, more, t, like);
      assert (conds + [c])[1..] == conds[1..] + [c];
      assert (args + more)[n..] == args[n..] + more;
      assert (args + more)[..n] == args[..n];
    }
  }

  /** The filter's constraints, in the order the compiler treats them. */
  ghost predicate Part(k: nat, f: ListFilter, t: Task, like: Like) {
    match k
    case 0 => NameOk(f, t, like)
    case 1 => CommandOk(f, t, like)
    case 2 => KindOk(f, t)
    case 3 => StatusOk(f, t)
    case 4 => WorkerOk(f, t, like)
    case 5 => EnabledOk(f, t)
    case _ => ParentOk(f, t)
  }

  ghost predicate FirstParts(k: nat, f: ListFilter, t: Task, like: Like) {
    k == 0 || (FirstParts(k - 1, f, t, like) && Part(k - 1, f, t, like))
  }

  /** The clauses so far express the first k constraints, of every row, under every LIKE. */
  ghost predicate Says(conds: seq<Clause>, args: seq<Arg>, k: nat, f: ListFilter) {
    forall t, like :: Evaluate(conds, args, t, like) == Some(FirstParts(k, f, t, like))
  }

  lemma AddClause(conds: seq<Clause>, args: seq<Arg>, k: nat, f: ListFilter, c: Clause, more: seq<Arg>)
    requires Says(conds, args, k, f) && |more| == Placeholders(c)
    requires forall t, like :: Part(k, f, t, like) == Holds(c, more, t, like)
    ensures Says(conds + [c], args + more, k + 1, f)
  {
    forall t, like ensures Evaluate(conds + [c], args + more, t, like) == Some(FirstParts(k + 1, f, t, like)) {
      EvaluateAppend(conds, args, c, more, t, like);
      assert Part(k, f, t, like) == Holds(c, more, t, like);
    }
  }

  lemma SkipClause(conds: seq<Clause>, args: seq<Arg>, k: nat, f: ListFilter)
    requires Says(conds, args, k, f)
    requires forall t, like :: Part(k, f, t, like)
    ensures Says(conds, args, k + 1, f)
  {
    forall t, like ensures Evaluate(conds, args, t, like) == Some(FirstParts(k + 1, f, t, like)) {
      assert Part(k, f, t, like);
    }
  }

  lemma AllParts(conds: seq<Clause>, args: seq<Arg>, f: ListFilter)
    requires Says(conds, args, 7, f)
    ensures forall t, like :: Evaluate(conds, args, t, like) == Some(Matches(f, t, like))
  {
    forall t, like ensures Evaluate(conds, args, t, like) == Some(Matches(f, t, like)) {
      FirstPartsMatch(f, t, like);
    }
  }

  lemma FirstPartsMatch(f: ListFilter, t: Task, like: Like)
    ensures FirstParts(7, f, t, like) == Matches(f, t, like)
  {
    assert FirstParts(1, f, t, like) == Part(0, f, t, like);
    assert FirstParts(2, f, t, like) == (FirstParts(1, f, t, like) && Part(1, f, t, like));
    assert FirstParts(3, f, t, like) == (FirstParts(2, f, t, like) && Part(2, f, t, like));
    assert FirstParts(4, f, t, like) == (FirstParts(3, f, t, like) && Part(3, f, t, like));
    assert FirstParts(5, f, t, like) == (FirstParts(4, f, t, like) && Part(4, f, t, like));
    assert FirstParts(6, f, t, like) == (FirstParts(5, f, t, like) && Part(5, f, t, like));
  }

  /** The statuses the IN list carries; an empty list means no status clause. */
  ghost predicate StatusList(f: ListFilter, statuses: seq<string>) {
    if f.status == "done" then statuses == ["success", "failed", "dead"]
    else forall st :: st in statuses <==> Names(f.status, st)
  }

  lemma StatusListMeans(f: ListFilter, statuses: seq<string>)
    requires StatusList(f, statuses)
    ensures forall t :: StatusOk(f, t) <==> (|statuses| > 0 ==> StatusText(t.status) in statuses)
  {
    if f.status != "done" {
      if |statuses| > 0 {
        assert statuses[0] in statuses;
      }
      if st :| Names(f.status, st) {
        assert st in statuses;
      }
    } else {
      assert "success" in statuses && "failed" in statuses && "dead" in statuses;
    }
  }

  /** The status constraint, compiled on its own: an IN list, or nothing. */
  method StatusClause(f: ListFilter) returns (conds: seq<Clause>, args: seq<Arg>)
    ensures conds == [] ==> args == [] && forall t, like :: Part(3, f, t, like)
    ensures conds != [] ==>
              && |conds| == 1 && |args| == Placeholders(conds[0])
              && forall t, like :: Part(3, f, t, like) == Holds(conds[0], args, t, like)
  {
    var statuses := SplitStatuses(f.status);
    if f.status == "done" {
      statuses := [StatusText(Success), StatusText(Failed), StatusText(Dead)];
    }
    StatusListMeans(f, statuses);
    conds, args := [], [];
    if |statuses| > 0 {
      conds := [StatusIn(|statuses|)];
      for i := 0 to |statuses|
        invariant |args| == i
        invariant forall st :: Text(st) in args <==> st in statuses[..i]
      {
        args := args + [Text(statuses[i])];
        assert forall st :: st in statuses[..i + 1] <==> st in statuses[..i] || st == statuses[i];
      }
      assert statuses[..|statuses|] == statuses;
    }
  }

  /** The conditions on the enabled flag and the parent, after those on the texts. */
  method FlagClauses(f: ListFilter, front: seq<Clause>, frontArgs: seq<Arg>) returns (conds: seq<Clause>, args: seq<Arg>)
    requires Says(front, frontArgs, 5, f)
    ensures conds != [] && Says(conds, args, 7, f)
  {
    conds, args := front, frontArgs;
    if f.enabled == "true" {
      AddClause(conds, args, 5, f, EnabledIs(true), []);
      conds, args := conds + [EnabledIs(true)], args + [];
    } else if f.enabled == "false" {
      AddClause(conds, args, 5, f, EnabledIs(false), []);
      conds, args := conds + [EnabledIs(false)], args + [];
    } else {
      SkipClause(conds, args, 5, f);
    }
    assert Says(conds, args, 6, f);
    if f.parentId > 0 {
      AddClause(conds, args, 6, f, ParentIs, [Num(f.parentId)]);
      conds, args := conds + [ParentIs], args + [Num(f.parentId)];
    } else {
      AddClause(conds, args, 6, f, TopLevel, []);
      conds, args := conds + [TopLevel], args + [];
    }
  }

  /** Compile a filter. Evaluating the clauses, with the arguments consumed left to
      right, accepts exactly the rows the filter describes, and the arguments fit the
      placeholders; a missing filter is the empty one. */
  method BuildWhere(filter: Option<ListFilter>) returns (conds: seq<Clause>, args: seq<Arg>)
    ensures conds != []
    ensures
      var f := if filter.Some? then filter.value else NO_FILTER;
      forall t, like :: Evaluate(conds, args, t, like) == Some(Matches(f, t, like))
  {
    var f := if filter.Some? then filter.value else NO_FILTER;
    conds, args := [], [];
    if f.name != "" {
      AddClause(conds, args, 0, f, NameLike, [Text(Around(f.name))]);
      conds, args := conds + [NameLike], args + [Text(Around(f.name))];
    } else {
      SkipClause(conds, args, 0, f);
    }
    assert Says(conds, args, 1, f);
    if f.command != "" {
      AddClause(conds, args, 1, f, CommandLike, [Text(Around(f.command))]);
      conds, args := conds + [CommandLike], args + [Text(Around(f.command))];
    } else {
      SkipClause(conds, args, 1, f);
    }
    assert Says(conds, args, 2, f);
    if f.kind != "" {
      AddClause(conds, args, 2, f, KindIs, [Text(f.kind)]);
      conds, args := conds + [KindIs], args + [Text(f.kind)];
    } else {
      SkipClause(conds, args, 2, f);
    }
    assert Says(conds, args, 3, f);
    var statusConds, statusArgs := StatusClause(f);
    if statusConds != [] {
      AddClause(conds, args, 3, f, statusConds[0], statusArgs);
      conds, args := conds + [statusConds[0]], args + statusArgs;
    } else {
      SkipClause(conds, args, 3, f);
    }
    assert Says(conds, args, 4, f);
    if f.worker != "" {
      AddClause(conds, args, 4, f, WorkerLike, [Text(Around(f.worker))]);
      conds, args := conds + [WorkerLike], args + [Text(Around(f.worker))];
    } else {
      SkipClause(conds, args, 4, f);
    }
    assert Says(conds, args, 5, f);
    conds, args := FlagClauses(f, conds, args);
    AllParts(conds, args, f);
  }
}
