/**
 * The `/api/code-helper` prompt dispatcher: it validates the request body and
 * turns a task tag plus the user's code into the prompt sent to the language
 * model. The model call itself is outside this module; the prompt is its result.
 */
module CodeHelper {
  import opened Results

  /** The four task tags the endpoint accepts. */
  datatype Task = Explain | Fix | Convert | Document

  /** The tag a client sends for each task. */
  function Tag(t: Task): string
  {
    match t
    case Explain => "explain"
    case Fix => "fix"
    case Convert => "convert"
    case Document => "document"
  }

  /** Strict (`===`) comparison of the tag against the four known ones; anything else is unknown. */
  function ParseTask(tag: string): (r: Option<Task>)
    ensures r.Some? ==> Tag(r.value) == tag
    ensures r.None? <==> forall t: Task :: Tag(t) != tag
  {
    if tag == "explain" then Some(Explain)
    else if tag == "fix" then Some(Fix)
    else if tag == "convert" then Some(Convert)
    else if tag == "document" then Some(Document)
    else None
  }

  /** The two client errors, each answered with HTTP status 400. */
  datatype HelperError = MissingFields | InvalidTaskType
  {
    function Message(): string
    {
      match this
      case MissingFields => "Fields 'taskType' and 'code' are required"
      case InvalidTaskType => "Invalid task type"
    }

    function Status(): int { 400 }
  }

  /** JavaScript truthiness of a string field: `undefined` and `""` are falsy. */
  predicate Truthy(f: Option<string>)
  {
    f.Some? && f.value != ""
  }

  /** `f || fallback` on a string field: the field when truthy, the fallback otherwise, never empty when the fallback is not. */
  function Or(f: Option<string>, fallback: string): (r: string)
    ensures Truthy(f) ==> r == f.value
    ensures !Truthy(f) ==> r == fallback
    ensures fallback != "" ==> r != ""
  {
    if Truthy(f) then f.value else fallback
  }

  /** `part` occurs in `s` starting at position `k`. */
  predicate OccursAt(s: string, part: string, k: nat)
  {
    k + |part| <= |s| && s[k..k + |part|] == part
  }

  /** `part` occurs somewhere in `s`, unaltered. */
  ghost predicate Contains(s: string, part: string)
  {
    exists k: nat :: OccursAt(s, part, k)
  }

  /**
   * The fixed text of each template around `${code}`: what comes before the
   * code and what comes after it, with the labels already filled in.
   */
  function Template(t: Task, language: string, target: string, extra: string): (string, string)
  {
    match t
    case Explain =>
      ("\n"
       + "Explain this " + language + " code in simple language.\n"
       + "Break it step-by-step:\n"
       + "\n",
       "\n"
       + "\n"
       + "Extra: " + extra + "\n")
    case Fix =>
      ("\n"
       + "Find bugs in this " + language + " code.\n"
       + "Explain mistakes and give a corrected version:\n"
       + "\n",
       "\n")
    case Convert =>
      ("\n"
       + "Convert this code from " + language + " to " + target + ".\n"
       + "Preserve logic and optimize:\n"
       + "\n",
       "\n")
    case Document =>
      ("\n"
       + "Write documentation for this " + language + " code.\n"
       + "Include:\n"
       + "- Purpose\n"
       + "- Flow summary\n"
       + "- Function explanations\n"
       + "- Inputs & outputs\n"
       + "- Example usage\n"
       + "\n",
       "\n")
  }

  lemma OccursByIndex(s: string, part: string, k: nat)
    requires k + |part| <= |s|
    requires forall j :: 0 <= j < |part| ==> s[k + j] == part[j]
    ensures OccursAt(s, part, k)
  {
    assert s[k..k + |part|] == part;
  }

  // Proof steps of TemplateLabels: one label of one template at a time.

  lemma ExplainLabels(language: string, target: string, extra: string)
    ensures OccursAt(Template(Explain, language, target, extra).0, language, 14)
    ensures OccursAt(Template(Explain, language, target, extra).1, extra, 9)
  {
    var (before, after) := Template(Explain, language, target, extra);
    forall j | 0 <= j < |language| ensures before[14 + j] == language[j] { }
    OccursByIndex(before, language, 14);
    forall j | 0 <= j < |extra| ensures after[9 + j] == extra[j] { }
    OccursByIndex(after, extra, 9);
  }

  lemma FixLabels(language: string, target: string, extra: string)
    ensures OccursAt(Template(Fix, language, target, extra).0, language, 19)
  {
    var (before, _) := Template(Fix, language, target, extra);
    forall j | 0 <= j < |language| ensures before[19 + j] == language[j] { }
    OccursByIndex(before, language, 19);
  }

  lemma ConvertLanguageLabel(language: string, target: string, extra: string)
    ensures OccursAt(Template(Convert, language, target, extra).0, language, 24)
  {
    var (before, _) := Template(Convert, language, target, extra);
    forall j | 0 <= j < |language| ensures before[24 + j] == language[j] { }
    OccursByIndex(before, language, 24);
  }

  lemma ConvertTargetLabel(language: string, target: string, extra: string)
    ensures OccursAt(Template(Convert, language, target, extra).0, target, 28 + |language|)
  {
    var (before, _) := Template(Convert, language, target, extra);
    forall j | 0 <= j < |target| ensures before[28 + |language| + j] == target[j] { }
    OccursByIndex(before, target, 28 + |language|);
  }

  lemma DocumentLabels(language: string, target: string, extra: string)
    ensures OccursAt(Template(Document, language, target, extra).0, language, 30)
  {
    var (before, _) := Template(Document, language, target, extra);
    forall j | 0 <= j < |language| ensures before[30 + j] == language[j] { }
    OccursByIndex(before, language, 30);
  }

  /**
   * Each template inserts its labels verbatim at a fixed offset of its opening
   * line; the other three end with a single newline after the code. The
   * per-template lemmas above are its proof steps.
   */
  lemma TemplateLabels(t: Task, language: string, target: string, extra: string)
    ensures var (before, after) := Template(t, language, target, extra);
            && (t == Explain ==> OccursAt(before, language, 14) && OccursAt(after, extra, 9))
            && (t == Fix ==> OccursAt(before, language, 19))
            && (t == Convert ==> OccursAt(before, language, 24) && OccursAt(before, target, 28 + |language|))
            && (t == Document ==> OccursAt(before, language, 30))
            && (t != Explain ==> after == "\n")
  {
    match t
    case Explain => ExplainLabels(language, target, extra);
    case Fix => FixLabels(language, target, extra);
    case Convert =>
      ConvertLanguageLabel(language, target, extra);
      ConvertTargetLabel(language, target, extra);
    case Document => DocumentLabels(language, target, extra);
  }

  lemma OccursBetween(before: string, part: string, after: string)
    ensures OccursAt(before + part + after, part, |before|)
    ensures Contains(before + part + after, part)
  {
    assert (before + part + after)[|before|..|before| + |part|] == part;
    assert OccursAt(before + part + after, part, |before|);
  }

  /**
   * The dispatcher. Missing fields are checked before the tag, an unknown tag
   * is rejected, and a known tag yields its template with the code inserted.
   */
  function BuildPrompt(taskType: Option<string>, code: Option<string>, language: Option<string>,
                       targetLanguage: Option<string>, extra: Option<string>): (r: Result<string, HelperError>)
    ensures r == Err(MissingFields) <==> !Truthy(code) || !Truthy(taskType)
    ensures r == Err(InvalidTaskType) <==> Truthy(code) && Truthy(taskType) && ParseTask(taskType.value).None?
    ensures r.Ok? ==> code.Some? && Contains(r.value, code.value) && |r.value| > |code.value|
  {
    if !Truthy(code) || !Truthy(taskType) then Err(MissingFields)
    else match ParseTask(taskType.value)
      case None => Err(InvalidTaskType)
      case Some(t) =>
        var (before, after) := Template(t, Or(language, ""), Or(targetLanguage, ""), Or(extra, "None"));
        OccursBetween(before, code.value, after);
        Ok(before + code.value + after)
  }

  /**
   * Reads the code back out of a prompt built for task `t` with the given
   * labels: the prompt must start and end with that template's fixed text.
   */
  function ExtractCode(t: Task, language: string, target: string, extra: string, prompt: string): Option<string>
  {
    var (before, after) := Template(t, language, target, extra);
    if |before| + |after| <= |prompt| && prompt[..|before|] == before && prompt[|prompt| - |after|..] == after
    then Some(prompt[|before|..|prompt| - |after|])
    else None
  }

  lemma ParseTag(t: Task)
    ensures Truthy(Some(Tag(t))) && ParseTask(Tag(t)) == Some(t)
  {
  }

  /** Every valid request produces a prompt from which its code is recovered exactly. */
  lemma ExtractInvertsBuild(t: Task, code: string, language: Option<string>,
                                               targetLanguage: Option<string>, extra: Option<string>)
    requires code != ""
    ensures var r := BuildPrompt(Some(Tag(t)), Some(code), language, targetLanguage, extra);
            r.Ok? && ExtractCode(t, Or(language, ""), Or(targetLanguage, ""), Or(extra, "None"), r.value) == Some(code)
  {
    ParseTag(t);
    var (before, after) := Template(t, Or(language, ""), Or(targetLanguage, ""), Or(extra, "None"));
    var p := before + code + after;
    assert p[..|before|] == before;
    assert p[|p| - |after|..] == after;
    assert p[|before|..|p| - |after|] == code;
  }

  /** Conversely, a prompt that has a template's shape is exactly what that request builds. */
  lemma BuildInvertsExtract(t: Task, code: string, language: Option<string>,
                                               targetLanguage: Option<string>, extra: Option<string>, prompt: string)
    requires code != ""
    requires ExtractCode(t, Or(language, ""), Or(targetLanguage, ""), Or(extra, "None"), prompt) == Some(code)
    ensures BuildPrompt(Some(Tag(t)), Some(code), language, targetLanguage, extra) == Ok(prompt)
  {
    ParseTag(t);
    var (before, after) := Template(t, Or(language, ""), Or(targetLanguage, ""), Or(extra, "None"));
    assert prompt == prompt[..|before|] + prompt[|before|..|prompt| - |after|] + prompt[|prompt| - |after|..];
  }

  /** No two different code texts yield the same prompt: nothing is truncated or rewritten. */
  lemma PromptDeterminesCode(t: Task, code1: string, code2: string, language: Option<string>,
                                                targetLanguage: Option<string>, extra: Option<string>)
    requires code1 != "" && code2 != ""
    requires BuildPrompt(Some(Tag(t)), Some(code1), language, targetLanguage, extra)
          == BuildPrompt(Some(Tag(t)), Some(code2), language, targetLanguage, extra)
    ensures code1 == code2
  {
    ExtractInvertsBuild(t, code1, language, targetLanguage, extra);
    ExtractInvertsBuild(t, code2, language, targetLanguage, extra);
  }

  /**
   * An absent field and an empty one are indistinguishable to the dispatcher
   * (both are falsy under `Truthy`), and both count as missing for `code` and
   * `taskType`.
   */
  lemma AbsentIsEmpty(taskType: Option<string>, code: Option<string>, language: Option<string>,
                      targetLanguage: Option<string>, extra: Option<string>)
    ensures BuildPrompt(None, code, language, targetLanguage, extra)
         == BuildPrompt(Some(""), code, language, targetLanguage, extra) == Err(MissingFields)
    ensures BuildPrompt(taskType, None, language, targetLanguage, extra)
         == BuildPrompt(taskType, Some(""), language, targetLanguage, extra) == Err(MissingFields)
    ensures BuildPrompt(taskType, code, None, targetLanguage, extra)
         == BuildPrompt(taskType, code, Some(""), targetLanguage, extra)
    ensures BuildPrompt(taskType, code, language, None, extra)
         == BuildPrompt(taskType, code, language, Some(""), extra)
    ensures BuildPrompt(taskType, code, language, targetLanguage, None)
         == BuildPrompt(taskType, code, language, targetLanguage, Some(""))
  {
  }

  /** `extra` is read only by the explain template. */
  lemma ExtraOnlyInExplain(taskType: Option<string>, code: Option<string>, language: Option<string>,
                           targetLanguage: Option<string>, extra1: Option<string>, extra2: Option<string>)
    requires taskType != Some("explain")
    ensures BuildPrompt(taskType, code, language, targetLanguage, extra1)
         == BuildPrompt(taskType, code, language, targetLanguage, extra2)
  {
  }

  /** An absent `extra` reads "None" at the end of the explain prompt. */
  lemma ExtraDefaultsToNone(code: string, language: Option<string>, targetLanguage: Option<string>)
    requires code != ""
    ensures var r := BuildPrompt(Some("explain"), Some(code), language, targetLanguage, None);
            r.Ok? && OccursAt(r.value, "\n\nExtra: None\n", |r.value| - 14)
  {
    ParseTag(Explain);
    var r := BuildPrompt(Some("explain"), Some(code), language, targetLanguage, None);
    var (before, after) := Template(Explain, Or(language, ""), Or(targetLanguage, ""), "None");
    assert after == "\n" + "\n" + "Extra: " + "None" + "\n" == "\n\nExtra: None\n";
    assert r.value == before + code + after;
    assert r.value[|r.value| - 14..] == after;
  }

  /** `targetLanguage` is read only by the convert template. */
  lemma TargetOnlyInConvert(taskType: Option<string>, code: Option<string>, language: Option<string>,
                            target1: Option<string>, target2: Option<string>, extra: Option<string>)
    requires taskType != Some("convert")
    ensures BuildPrompt(taskType, code, language, target1, extra)
         == BuildPrompt(taskType, code, language, target2, extra)
  {
  }

  lemma ConvertHead(language: string, extra: string)
    ensures var head := "\nConvert this code from " + language + " to .\n";
            |head| <= |Template(Convert, language, "", extra).0|
            && Template(Convert, language, "", extra).0[..|head|] == head
  {
    var (before, _) := Template(Convert, language, "", extra);
    var head := "\nConvert this code from " + language + " to .\n";
    assert " to " + "" + ".\n" == " to .\n";
    assert before == head + "Preserve logic and optimize:\n" + "\n";
  }

  /** Convert accepts a missing `targetLanguage` and renders an empty target label. */
  lemma ConvertWithoutTarget(code: string, language: Option<string>, extra: Option<string>)
    requires code != ""
    ensures var r := BuildPrompt(Some("convert"), Some(code), language, None, extra);
            r.Ok? && OccursAt(r.value, "\nConvert this code from " + Or(language, "") + " to .\n", 0)
  {
    ParseTag(Convert);
    var lang := Or(language, "");
    var (before, after) := Template(Convert, lang, "", Or(extra, "None"));
    ConvertHead(lang, Or(extra, "None"));
    var head := "\nConvert this code from " + lang + " to .\n";
    var prompt := before + code + after;
    assert prompt[..|head|] == before[..|head|];
  }

  /** A fix request for a Python snippet. */
  lemma FixScenario()
    ensures BuildPrompt(Some("fix"), Some("def f(): retrun 1"), Some("python"), None, None)
         == Ok("\nFind bugs in this python code.\n"
               + "Explain mistakes and give a corrected version:\n"
               + "\n"
               + "def f(): retrun 1" + "\n")
  {
    assert "\n" + "Find bugs in this " + "python" + " code.\n" == "\nFind bugs in this python code.\n";
  }

  /** A Python-to-Go conversion request. */
  lemma ConvertScenario()
    ensures BuildPrompt(Some("convert"), Some("print(1)"), Some("python"), Some("go"), None)
         == Ok("\nConvert this code from python to go.\n"
               + "Preserve logic and optimize:\n"
               + "\n"
               + "print(1)" + "\n")
  {
    assert "\n" + "Convert this code from " + "python" + " to " + "go" + ".\n" == "\nConvert this code from python to go.\n";
  }

  /** An unknown tag is rejected, but only once both required fields are present. */
  lemma UnknownTagScenario()
    ensures BuildPrompt(Some("refactor"), Some("x = 1"), None, None, None) == Err(InvalidTaskType)
    ensures BuildPrompt(Some("refactor"), Some(""), None, None, None) == Err(MissingFields)
  {
  }
}
