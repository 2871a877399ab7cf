/**
 * The pre-flight part of the analysis handler: selecting the non-blank task
 * texts, checking that an API key and at least one task are present, and
 * writing the user prompt that carries the context and the numbered tasks.
 */
module Prompt {
  import opened Wrappers
  import opened Text
  import opened TaskList
  import opened Messages

  /** The contents of the rows whose trimmed content is non-empty, untrimmed and in list order. */
  function ValidTasks(ts: seq<TaskItem>): (r: seq<string>)
    ensures |r| <= |ts|
    ensures forall i :: 0 <= i < |r| ==> Trim(r[i]) != []
  {
    if ts == [] then []
    else
      var rest := ValidTasks(ts[1..]);
      if Trim(ts[0].content) != "" then [ts[0].content] + rest else rest
  }

  /** Selection distributes over concatenation, so it keeps the relative order of the rows. */
  lemma {:induction false} ValidTasksConcat(a: seq<TaskItem>, b: seq<TaskItem>)
    ensures ValidTasks(a + b) == ValidTasks(a) + ValidTasks(b)
  {
    if a != [] {
      assert (a + b)[1..] == a[1..] + b;
      ValidTasksConcat(a[1..], b);
    } else {
      assert a + b == b;
    }
  }

  /** A single row is selected, untrimmed, exactly when its content is not blank. */
  lemma ValidTasksSingle(t: TaskItem)
    ensures ValidTasks([t]) == if IsBlank(t.content) then [] else [t.content]
  {
    TrimEmptyIffBlank(t.content);
  }

  /** No task is selected exactly when every row is blank. */
  lemma {:induction false} ValidTasksEmptyIffAllBlank(ts: seq<TaskItem>)
    ensures ValidTasks(ts) == [] <==> forall i :: 0 <= i < |ts| ==> IsBlank(ts[i].content)
  {
    if ts != [] {
      ValidTasksEmptyIffAllBlank(ts[1..]);
      TrimEmptyIffBlank(ts[0].content);
      assert forall i :: 1 <= i < |ts| ==> ts[i] == ts[1..][i - 1];
    }
  }

  /** Blank rows are dropped and the others keep their order: A, blank, B gives A, B. */
  lemma ValidTasksExample(a: TaskItem, blank: TaskItem, b: TaskItem)
    requires !IsBlank(a.content) && blank.content == "" && !IsBlank(b.content)
    ensures ValidTasks([a, blank, b]) == [a.content, b.content]
  {
    ValidTasksSingle(a);
    ValidTasksSingle(blank);
    ValidTasksSingle(b);
    ValidTasksConcat([a], [blank]);
    ValidTasksConcat([a] + [blank], [b]);
    assert [a] + [blank] + [b] == [a, blank, b];
  }

  /** Adding a blank row never changes what would be submitted. */
  lemma ValidTasksInsertAfter(ts: seq<TaskItem>, index: int, id: string)
    ensures ValidTasks(InsertAfter(ts, index, id)) == ValidTasks(ts)
  {
    var p := SpliceStart(index + 1, |ts|);
    var blank := TaskItem(id, "");
    ValidTasksConcat(ts[..p] + [blank], ts[p..]);
    ValidTasksConcat(ts[..p], [blank]);
    ValidTasksSingle(blank);
    assert ValidTasks([blank]) == [];
    ValidTasksConcat(ts[..p], ts[p..]);
    assert ts[..p] + ts[p..] == ts;
    assert InsertAfter(ts, index, id) == ts[..p] + [blank] + ts[p..];
  }

  /**
   * The checks made before anything is sent: a missing API key is reported
   * first, then a list with no non-blank row; otherwise the selected tasks.
   */
  function Preflight(apiKey: string, ts: seq<TaskItem>): (r: Result<seq<string>, Message>)
    ensures r == Failure(MissingApiKey) <==> apiKey == ""
    ensures r == Failure(NoTasks) <==> apiKey != "" && forall i :: 0 <= i < |ts| ==> IsBlank(ts[i].content)
    ensures r.Success? ==> r.value == ValidTasks(ts) && |r.value| >= 1
    ensures r.Failure? ==> r.error == MissingApiKey || r.error == NoTasks
  {
    var valid := ValidTasks(ts);
    ValidTasksEmptyIffAllBlank(ts);
    if apiKey == "" then Failure(MissingApiKey)
    else if |valid| == 0 then Failure(NoTasks)
    else Success(valid)
  }

  /** The context used when none was entered. */
  const DefaultContext: string := "指定なし（一般的な業務として解釈）"

  /** The context as the prompt uses it: an empty entry is replaced by the default. */
  function EffectiveContext(context: string): string {
    if context == "" then DefaultContext else context
  }

  /** A task line of the prompt: its 1-based number, a dot, a space and the task text. */
  function NumberedLine(k: nat, t: string): string {
    NatToString(k) + ". " + t
  }

  /** The task lines, numbered from 1 in list order. */
  function EnumeratedLines(ts: seq<string>): seq<string> {
    seq(|ts|, i requires 0 <= i < |ts| => NumberedLine(i + 1, ts[i]))
  }

  /** The task section of the prompt: the task lines joined with newlines. */
  function TaskSection(ts: seq<string>): string {
    Join(EnumeratedLines(ts), "\n")
  }

  const ContextHeading: string := "\n【業務概要】\n"
  const TasksHeading: string := "\n\n【タスクリスト（順序通り）】\n"
  const PromptTail: string := "\n      "

  /** The user prompt sent along with the fixed instruction text. */
  function PromptText(context: string, ts: seq<string>): string {
    ContextHeading + EffectiveContext(context) + TasksHeading + TaskSection(ts) + PromptTail
  }

  /** Reads a task line back into its number and its text. */
  function ParseNumberedLine(line: string): Option<(nat, string)> {
    var d := LeadingDigits(line);
    if 0 < d && d + 2 <= |line| && line[d..d + 2] == ". " then Some((DigitsValue(line[..d]), line[d + 2..]))
    else None
  }

  /** A task line reads back as the number and the text it was written from. */
  lemma NumberedLineRoundTrip(k: nat, t: string)
    ensures ParseNumberedLine(NumberedLine(k, t)) == Some((k, t))
  {
    var digits := NatToString(k);
    var line := NumberedLine(k, t);
    assert line == digits + (". " + t);
    LeadingDigitsOf(digits, ". " + t);
    assert line[..|digits|] == digits;
    assert line[|digits|..|digits| + 2] == ". ";
    assert line[|digits| + 2..] == t;
    NatToStringRoundTrip(k);
  }

  /** A task line has no newline when its task text has none. */
  lemma NumberedLineFree(k: nat, t: string)
    requires Free(t, '\n')
    ensures Free(NumberedLine(k, t), '\n')
  {
    var line := NumberedLine(k, t);
    var digits := NatToString(k);
    forall i | 0 <= i < |line| ensures line[i] != '\n' {
      if i < |digits| { assert line[i] == digits[i] && IsDigit(digits[i]); }
      else if i >= |digits| + 2 { assert line[i] == t[i - |digits| - 2]; }
    }
  }

  /**
   * When no task text contains a newline, the task section consists of exactly
   * one line per task, and line i reads back as number i + 1 and task i.
   */
  lemma TaskSectionLines(ts: seq<string>)
    requires |ts| >= 1
    requires forall i :: 0 <= i < |ts| ==> Free(ts[i], '\n')
    ensures |Split(TaskSection(ts), '\n')| == |ts|
    ensures forall i :: 0 <= i < |ts| ==> Split(TaskSection(ts), '\n')[i] == NumberedLine(i + 1, ts[i])
    ensures forall i :: 0 <= i < |ts| ==> ParseNumberedLine(Split(TaskSection(ts), '\n')[i]) == Some((i + 1, ts[i]))
  {
    var lines := EnumeratedLines(ts);
    forall i | 0 <= i < |lines| ensures Free(lines[i], '\n') {
      NumberedLineFree(i + 1, ts[i]);
    }
    SplitJoin(lines, '\n');
    forall i | 0 <= i < |ts| ensures ParseNumberedLine(lines[i]) == Some((i + 1, ts[i])) {
      NumberedLineRoundTrip(i + 1, ts[i]);
    }
  }

  /** Each element of a join occurs in it. */
  lemma {:induction false} OccursInJoin(xs: seq<string>, sep: string, i: nat)
    requires i < |xs|
    ensures Occurs(Join(xs, sep), xs[i])
  {
    if |xs| == 1 {
      assert OccursAt(Join(xs, sep), xs[i], 0);
    } else if i == 0 {
      assert OccursAt(Join(xs, sep), xs[0], 0);
    } else {
      OccursInJoin(xs[1..], sep, i - 1);
      OccursInConcat(xs[0] + sep, Join(xs[1..], sep), [], xs[i]);
      assert xs[0] + sep + Join(xs[1..], sep) + [] == Join(xs, sep);
    }
  }

  /**
   * The prompt carries the context (or the default when none was entered) and
   * every task line; the context appears verbatim when one was entered.
   */
  lemma PromptMentions(context: string, ts: seq<string>)
    ensures Occurs(PromptText(context, ts), if context == "" then DefaultContext else context)
    ensures forall i :: 0 <= i < |ts| ==> Occurs(PromptText(context, ts), NumberedLine(i + 1, ts[i]))
  {
    var c := EffectiveContext(context);
    var section := TaskSection(ts);
    assert OccursAt(c, c, 0);
    OccursInConcat(ContextHeading, c, TasksHeading + section + PromptTail, c);
    assert ContextHeading + c + (TasksHeading + section + PromptTail) == PromptText(context, ts);
    forall i | 0 <= i < |ts| ensures Occurs(PromptText(context, ts), NumberedLine(i + 1, ts[i])) {
      OccursInJoin(EnumeratedLines(ts), "\n", i);
      OccursInConcat(ContextHeading + c + TasksHeading, section, PromptTail, NumberedLine(i + 1, ts[i]));
    }
  }
}
