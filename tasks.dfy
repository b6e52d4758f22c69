/**
 * Task rules of AddTaskHandler.post and SubmissionFileHandler.get: the
 * task-type parameters a form selects, the "simple" submission format, and
 * the file name a submitted file is served under.
 */
module Tasks {
  import opened Wrappers
  import opened Arguments

  const BatchType := "TaskTypeBatch"
  const OutputOnlyType := "TaskTypeOutputOnly"
  const BatchEvaluations := ["diff", "comp", "grad"]
  const OutputOnlyEvaluations := ["diff", "comp"]

  /**
   * The task_type_parameters list AddTaskHandler.post builds, or the text of
   * the "Invalid field" notification when the form is not recognised.
   */
  function TaskTypeParameters(args: map<string, string>): (r: Result<seq<string>, string>)
    ensures r.Ok? ==> WellFormedParameters(Lookup(args, "task_type", ""), r.value)
    ensures r.Err? ==> r.error in ["Output evaluation not recognized.", "Task type not recognized."]
  {
    var taskType := Lookup(args, "task_type", "");
    if taskType == BatchType then
      var evaluation := Lookup(args, "Batch_evaluation", "");
      if evaluation !in BatchEvaluations then Err("Output evaluation not recognized.")
      else Ok([evaluation, if "Batch_use_files" in args then "file" else "nofile"])
    else if taskType == OutputOnlyType then
      var evaluation := Lookup(args, "OutputOnly_evaluation", "");
      if evaluation !in OutputOnlyEvaluations then Err("Output evaluation not recognized.")
      else Ok([evaluation])
    else Err("Task type not recognized.")
  }

  /** The parameter lists each task type accepts. */
  predicate WellFormedParameters(taskType: string, p: seq<string>) {
    || (taskType == BatchType && |p| == 2 && p[0] in BatchEvaluations && p[1] in ["file", "nofile"])
    || (taskType == OutputOnlyType && |p| == 1 && p[0] in OutputOnlyEvaluations)
  }

  /** A form that selects parameters p for a task of type taskType. */
  function FormFor(taskType: string, p: seq<string>): map<string, string>
    requires WellFormedParameters(taskType, p)
  {
    if taskType == BatchType then
      var form := map["task_type" := BatchType, "Batch_evaluation" := p[0]];
      if p[1] == "file" then form["Batch_use_files" := "on"] else form
    else map["task_type" := OutputOnlyType, "OutputOnly_evaluation" := p[0]]
  }

  /**
   * Every accepted form yields a well-formed list that records the chosen
   * evaluation and, for Batch, whether files are used; every refused form
   * names an unknown type or evaluation.
   */
  lemma TaskTypeParametersSound(args: map<string, string>)
    ensures var taskType := Lookup(args, "task_type", "");
            match TaskTypeParameters(args)
            case Ok(p) =>
              && WellFormedParameters(taskType, p)
              && (taskType == BatchType ==>
                    p[0] == Lookup(args, "Batch_evaluation", "") &&
                    (p[1] == "file" <==> "Batch_use_files" in args))
              && (taskType == OutputOnlyType ==> p[0] == Lookup(args, "OutputOnly_evaluation", ""))
            case Err(m) =>
              if taskType == BatchType then
                m == "Output evaluation not recognized." && Lookup(args, "Batch_evaluation", "") !in BatchEvaluations
              else if taskType == OutputOnlyType then
                m == "Output evaluation not recognized." &&
                Lookup(args, "OutputOnly_evaluation", "") !in OutputOnlyEvaluations
              else m == "Task type not recognized."
  {
  }

  /** Every well-formed parameter list is reachable: some form produces exactly it. */
  lemma TaskTypeParametersComplete(taskType: string, p: seq<string>)
    requires WellFormedParameters(taskType, p)
    ensures TaskTypeParameters(FormFor(taskType, p)) == Ok(p)
  {
    if taskType == BatchType {
      assert p == [p[0], p[1]];
    } else {
      assert p == [p[0]];
    }
  }

  // -------------------------------------------------------------- file names

  /** The "simple" submission format of a task: one file, "<name>.%l". */
  function SimpleSubmissionFormat(name: string): string {
    name + ".%l"
  }

  /** Python's str.replace: every non-overlapping occurrence, left to right. */
  function Replace(s: string, pattern: string, replacement: string): string
    requires |pattern| > 0
    decreases |s|
  {
    if |s| < |pattern| then s
    else if s[..|pattern|] == pattern then replacement + Replace(s[|pattern|..], pattern, replacement)
    else [s[0]] + Replace(s[1..], pattern, replacement)
  }

  predicate OccursAt(pattern: string, s: string, i: int) {
    0 <= i && i + |pattern| <= |s| && s[i..i + |pattern|] == pattern
  }

  predicate OccursNowhere(pattern: string, s: string) {
    forall i | 0 <= i <= |s| :: !OccursAt(pattern, s, i)
  }

  /**
   * The name a submitted file is served under: "%l" becomes the language.
   * With a language, the first "%l" is replaced and the substitution goes on
   * after it.
   */
  function RealFilename(filename: string, language: Option<string>): (r: string)
    ensures language.None? || OccursNowhere("%l", filename) ==> r == filename
    ensures language.Some? ==>
              forall i | 0 <= i <= |filename| && OccursAt("%l", filename, i) && OccursNowhere("%l", filename[..i]) ::
                r == filename[..i] + language.value + Replace(filename[i + 2..], "%l", language.value)
  {
    match language
    case None => filename
    case Some(l) =>
      ReplaceAtFirstOccurrence(filename, l);
      if OccursNowhere("%l", filename) then ReplaceWithoutOccurrence(filename, "%l", l); Replace(filename, "%l", l)
      else Replace(filename, "%l", l)
  }

  /** Dropping the first character keeps a string free of the pattern. */
  lemma OccursNowhereInTail(pattern: string, s: string)
    requires |s| > 0 && OccursNowhere(pattern, s)
    ensures OccursNowhere(pattern, s[1..])
  {
    forall i | 0 <= i <= |s[1..]|
      ensures !OccursAt(pattern, s[1..], i)
    {
      assert !OccursAt(pattern, s, i + 1);
      if i + |pattern| <= |s[1..]| {
        assert s[1..][i..i + |pattern|] == s[i + 1..i + 1 + |pattern|];
      }
    }
  }

  /** A name without the placeholder is served unchanged. */
  lemma {:induction false} ReplaceWithoutOccurrence(s: string, pattern: string, replacement: string)
    requires |pattern| > 0 && OccursNowhere(pattern, s)
    ensures Replace(s, pattern, replacement) == s
    decreases |s|
  {
    if |s| >= |pattern| {
      assert !OccursAt(pattern, s, 0);
      assert s[0..|pattern|] == s[..|pattern|];
      OccursNowhereInTail(pattern, s);
      ReplaceWithoutOccurrence(s[1..], pattern, replacement);
      assert [s[0]] + s[1..] == s;
    }
  }

  /**
   * A name whose first "%l" follows a placeholder-free prefix a: the prefix
   * is kept, the placeholder becomes the replacement, and the rest is
   * substituted in turn.
   */
  lemma {:induction false} ReplaceAfterPrefix(a: string, b: string, replacement: string)
    requires OccursNowhere("%l", a)
    ensures Replace(a + "%l" + b, "%l", replacement) == a + replacement + Replace(b, "%l", replacement)
    decreases |a|
  {
    var s := a + "%l" + b;
    if a == [] {
      assert s[..2] == "%l" && s[2..] == b;
    } else {
      if |a| >= 2 {
        assert !OccursAt("%l", a, 0);
        assert s[..2] == a[..2];
      } else {
        assert s[..2] == [a[0], '%'];
      }
      assert s[1..] == a[1..] + "%l" + b;
      OccursNowhereInTail("%l", a);
      ReplaceAfterPrefix(a[1..], b, replacement);
      assert [a[0]] + a[1..] == a;
    }
  }

  /** Every first occurrence of "%l" is where the substitution starts. */
  lemma ReplaceAtFirstOccurrence(filename: string, replacement: string)
    ensures forall i | 0 <= i <= |filename| && OccursAt("%l", filename, i) && OccursNowhere("%l", filename[..i]) ::
              Replace(filename, "%l", replacement) ==
              filename[..i] + replacement + Replace(filename[i + 2..], "%l", replacement)
  {
    forall i | 0 <= i <= |filename| && OccursAt("%l", filename, i) && OccursNowhere("%l", filename[..i])
      ensures Replace(filename, "%l", replacement) ==
              filename[..i] + replacement + Replace(filename[i + 2..], "%l", replacement)
    {
      assert filename == filename[..i] + "%l" + filename[i + 2..];
      ReplaceAfterPrefix(filename[..i], filename[i + 2..], replacement);
    }
  }

  /** A character other than 'l' appended to a placeholder-free name adds no "%l". */
  lemma OccursNowhereAppend(a: string, c: char)
    requires OccursNowhere("%l", a) && c != 'l'
    ensures OccursNowhere("%l", a + [c])
  {
    var s := a + [c];
    forall i | 0 <= i <= |s|
      ensures !OccursAt("%l", s, i)
    {
      if i + 2 <= |a| {
        assert s[i..i + 2] == a[i..i + 2];
        assert !OccursAt("%l", a, i);
      } else if i + 2 == |s| {
        assert s[i..i + 2][1] == c;
      }
    }
  }

  /**
   * A file of the simple format, for a task name without "%l", is served as
   * "<name>.<language>".
   */
  lemma SimpleFormatServedWithLanguage(name: string, language: string)
    requires OccursNowhere("%l", name)
    ensures RealFilename(SimpleSubmissionFormat(name), Some(language)) == name + "." + language
  {
    OccursNowhereAppend(name, '.');
    assert SimpleSubmissionFormat(name) == (name + ".") + "%l" + "";
    ReplaceAfterPrefix(name + ".", "", language);
    assert Replace("", "%l", language) == "";
  }
}
