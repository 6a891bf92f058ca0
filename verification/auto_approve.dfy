/** The automatic approval hook (`hooks/auto-approve.py`): a chain of gates
    over the hook's inputs, a one-word risk verdict read from the external
    judge's output, and the decision to approve (exit status 0, after
    printing SAFE and logging) or to fall back to asking the user (exit
    status 1). The environment, the configuration file, the judge process
    and Python's `json.dumps` and `str` are inputs of the model. */
module AutoApprove {
  import opened Options
  import opened Text
  import opened JsValues

  const SafeWord: string := "SAFE"
  const RiskWord: string := "RISK"
  /** The session a logged approval is filed under when the hook data
      names none. */
  const DefaultSessionId: string := "default"
  /** At most this many characters of the encoded tool input reach the
      judge. */
  const ToolInputLimit: nat := 500
  /** At most this many characters of the printed tool input stand in for
      a missing command and description. */
  const FallbackDescriptionLimit: nat := 200

  /** Python truthiness of a decoded JSON value: unlike JavaScript, empty
      arrays and objects are false. */
  predicate PyTruthy(v: Json) {
    match v
    case JNull => false
    case JBool(b) => b
    case JNum(n) => n != 0.0
    case JStr(s) => s != ""
    case JArr(items) => |items| > 0
    case JObj(fields) => |fields| > 0
  }

  /** `v` is a dict holding a truthy value under `key`: what `v.get(key)`
      in a boolean context tests. */
  predicate TruthyKey(v: Json, key: string) {
    v.JObj? && key in v.fields && PyTruthy(v.fields[key])
  }

  /** `dict.get(key, default)`: the value under the key, or the default;
      None where the receiver is not a dict and the call raises. */
  function Get(v: Json, key: string, default: Json): (r: Option<Json>)
    ensures r.None? <==> !v.JObj?
    ensures v.JObj? && key in v.fields ==> r == Some(v.fields[key])
    ensures v.JObj? && key !in v.fields ==> r == Some(default)
  {
    match v
    case JObj(fields) => Some(if key in fields then fields[key] else default)
    case _ => None
  }

  /** Python's `str.upper` on one character, as far as it decides whether
      a line reads as an upper-case ASCII word: the ASCII small letters,
      the dotless i and the long s are the only characters whose upper case
      is an ASCII capital; every other character is left alone. */
  function PyUpperChar(c: char): (u: char)
    ensures 'A' <= u <= 'Z' ==> ('A' <= c <= 'Z' || 'a' <= c <= 'z' || c == 'ı' || c == 'ſ')
  {
    if 'a' <= c <= 'z' then (c as int - 32) as char
    else if c == 'ı' then 'I'
    else if c == 'ſ' then 'S'
    else c
  }

  function PyUpper(s: string): (u: string)
    ensures |u| == |s|
    ensures forall i :: 0 <= i < |s| ==> u[i] == PyUpperChar(s[i])
  {
    seq(|s|, i requires 0 <= i < |s| => PyUpperChar(s[i]))
  }

  datatype Verdict = Safe | Risk

  /** The last line of the judge's output: the output stripped of
      surrounding whitespace, cut at newlines, and its last piece stripped
      again. */
  function LastLine(stdout: string): string {
    var lines := Split(PyStrip(stdout));
    PyStrip(lines[|lines| - 1])
  }

  /** A one-word verdict, in any letter case. */
  function ReadVerdict(line: string): (v: Option<Verdict>)
    ensures v == Some(Safe) <==> PyUpper(line) == SafeWord
    ensures v == Some(Risk) <==> PyUpper(line) == RiskWord
    ensures v.None? <==> PyUpper(line) != SafeWord && PyUpper(line) != RiskWord
  {
    var word := PyUpper(line);
    if word == SafeWord then Some(Safe)
    else if word == RiskWord then Some(Risk)
    else None
  }

  /** How a run of the judge ended: it raised (timeout, missing
      interpreter, any error), or it exited with a status and output. */
  datatype JudgeRun = Raised | Exited(returnCode: int, stdout: string)

  /** `judge_with_codex`: no verdict when the judge is not installed, when
      the run raises or exits non-zero, or when the last output line is
      neither word; otherwise the word it names. */
  function JudgeWithCodex(installed: bool, run: JudgeRun): (v: Option<Verdict>)
    ensures !installed || run.Raised? ==> v == None
    ensures run.Exited? && run.returnCode != 0 ==> v == None
    ensures v.Some? ==> installed && run == Exited(0, run.stdout)
    ensures installed && run.Exited? && run.returnCode == 0 ==> v == ReadVerdict(LastLine(run.stdout))
  {
    if !installed then None
    else
      match run
      case Raised => None
      case Exited(code, stdout) => if code == 0 then ReadVerdict(LastLine(stdout)) else None
  }

  /** Only the last line counts: whatever the judge printed before its
      final line, the verdict is that line's word. */
  lemma VerdictReadsLastLine(stdout: string, earlier: string, last: string)
    requires PyStrip(stdout) == earlier + "\n" + last && '\n' !in last
    ensures LastLine(stdout) == PyStrip(last)
    ensures JudgeWithCodex(true, Exited(0, stdout)) == ReadVerdict(PyStrip(last))
  {
    var parts := Split(earlier) + [last];
    JoinSplit(earlier);
    JoinAppend(Split(earlier), [last]);
    assert JoinLines(parts) == earlier + "\n" + last;
    SplitJoin(parts);
  }

  /** A one-line reply, the judge's usual answer, is read whole once
      surrounding whitespace is stripped. */
  lemma VerdictOfOneLine(stdout: string)
    requires '\n' !in PyStrip(stdout)
    ensures LastLine(stdout) == PyStrip(stdout)
    ensures JudgeWithCodex(true, Exited(0, stdout)) == ReadVerdict(PyStrip(stdout))
  {
    SplitSingle(PyStrip(stdout));
    StripClean(PyStrip(stdout), IsPySpace);
  }

  /** The verdict word is read without regard to letter case: a line and
      its upper-case form give the same verdict. */
  lemma VerdictIgnoresCase(line: string)
    ensures ReadVerdict(PyUpper(line)) == ReadVerdict(line)
  {
    var u := PyUpper(line);
    assert PyUpper(u) == u by {
      forall i | 0 <= i < |u|
        ensures PyUpper(u)[i] == u[i]
      {
        assert u[i] == PyUpperChar(line[i]);
      }
    }
  }

  /** The facts about the tool call the judge is given. The fixed text of
      the prompt around them is not modelled. */
  datatype Prompt = Prompt(toolName: string, toolInput: string, cwd: string, description: string)

  /** A value as an f-string shows it: a string as itself, anything else
      as Python's `str` prints it. */
  function Show(v: Json, pyStr: Json -> string): (s: string)
    ensures v.JStr? ==> s == v.s
  {
    if v.JStr? then v.s else pyStr(v)
  }

  /** `build_prompt`: the tool input is embedded as at most the first
      `ToolInputLimit` characters of its JSON encoding. */
  function BuildPrompt(toolName: Json, toolInput: Json, cwd: Json, description: Json,
                       dumps: Json -> string, pyStr: Json -> string): (p: Prompt)
    ensures |p.toolInput| <= ToolInputLimit && |p.toolInput| <= |dumps(toolInput)|
    ensures p.toolInput == dumps(toolInput)[..|p.toolInput|]
    ensures |dumps(toolInput)| <= ToolInputLimit ==> p.toolInput == dumps(toolInput)
    ensures |dumps(toolInput)| > ToolInputLimit ==> |p.toolInput| == ToolInputLimit
    ensures toolName.JStr? ==> p.toolName == toolName.s
    ensures description.JStr? ==> p.description == description.s
  {
    Prompt(Show(toolName, pyStr), Take(dumps(toolInput), ToolInputLimit), Show(cwd, pyStr), Show(description, pyStr))
  }

  /** The hook's description of the call: the tool input's command when it
      is truthy, else its description when that is, else the first
      `FallbackDescriptionLimit` characters of the printed tool input. None
      where the tool input is not a dict and the lookup raises. */
  function Describe(toolInput: Json, pyStr: Json -> string): (d: Option<Json>)
    ensures d.None? <==> !toolInput.JObj?
    ensures TruthyKey(toolInput, "command") ==> d == Some(toolInput.fields["command"])
    ensures !TruthyKey(toolInput, "command") && TruthyKey(toolInput, "description") ==>
              d == Some(toolInput.fields["description"])
    ensures toolInput.JObj? && !TruthyKey(toolInput, "command") && !TruthyKey(toolInput, "description") ==>
              d == Some(JStr(Take(pyStr(toolInput), FallbackDescriptionLimit)))
    ensures d.Some? && !PyTruthy(d.value) ==> d.value.JStr? && d.value.s == ""
  {
    match Get(toolInput, "command", JStr(""))
    case None => None
    case Some(command) =>
      if PyTruthy(command) then Some(command)
      else
        var description := Get(toolInput, "description", JStr("")).value;
        if PyTruthy(description) then Some(description)
        else Some(JStr(Take(pyStr(toolInput), FallbackDescriptionLimit)))
  }

  /** When the command and the description are both missing or falsy, the
      description is the printed tool input cut to the fallback limit: all
      of it when short enough, else exactly its first
      `FallbackDescriptionLimit` characters; and a description longer than
      the limit is always one the tool input gave. */
  lemma FallbackDescriptionIsPrefix(toolInput: Json, pyStr: Json -> string)
    requires toolInput.JObj?
    ensures var d := Describe(toolInput, pyStr).value;
            !TruthyKey(toolInput, "command") && !TruthyKey(toolInput, "description") ==>
              && d.JStr?
              && d.s == pyStr(toolInput)[..|d.s|]
              && |d.s| == (if |pyStr(toolInput)| <= FallbackDescriptionLimit then |pyStr(toolInput)| else FallbackDescriptionLimit)
    ensures var d := Describe(toolInput, pyStr).value;
            d.JStr? && |d.s| > FallbackDescriptionLimit ==>
              TruthyKey(toolInput, "command") || TruthyKey(toolInput, "description")
  {
  }

  /** What the hook extracted from its data. */
  datatype Call = Call(toolName: Json, toolInput: Json, cwd: Json, description: Json, sessionId: Json)

  /** The tool call read from the hook data: missing keys default (the
      session to "default" only when the key is absent, not when it is
      empty). None where the data or its tool input is not a dict. */
  function ReadCall(data: Json, pyStr: Json -> string): (c: Option<Call>)
    ensures c.Some? <==> data.JObj? && Get(data, "tool_input", JObj(map[])).value.JObj?
    ensures c.Some? ==>
              && c.value.toolName == Get(data, "tool_name", JStr("")).value
              && c.value.toolInput == Get(data, "tool_input", JObj(map[])).value
              && c.value.cwd == Get(data, "cwd", JStr("")).value
    ensures data.JObj? && "session_id" !in data.fields && c.Some? ==> c.value.sessionId == JStr(DefaultSessionId)
    ensures data.JObj? && "session_id" in data.fields && c.Some? ==> c.value.sessionId == data.fields["session_id"]
    ensures data.JObj? && "tool_input" !in data.fields ==> c.Some?
    ensures c.Some? ==> Describe(c.value.toolInput, pyStr) == Some(c.value.description)
  {
    match Get(data, "tool_name", JStr(""))
    case None => None
    case Some(toolName) =>
      var toolInput := Get(data, "tool_input", JObj(map[])).value;
      var cwd := Get(data, "cwd", JStr("")).value;
      match Describe(toolInput, pyStr)
      case None => None
      case Some(description) =>
        Some(Call(toolName, toolInput, cwd, description, Get(data, "session_id", JStr(DefaultSessionId)).value))
  }

  /** Where an approval is logged: the configured file, or the default
      one when none is configured. */
  datatype LogTarget = DefaultLog | LogFile(path: string)

  /** The logged record of an approval; its timestamp is not modelled. */
  datatype LogEntry = LogEntry(toolName: Json, description: Json, cwd: Json, sessionId: Json)

  /** Why the hook declined to approve, in the order the checks run. An
      uncaught exception ends the hook with status 1 as well. */
  datatype Reason =
    | NoHookData
    | InvalidHookJson
    | NoConfig
    | Disabled
    | JudgeMissing
    | NotSafe
    | Crashed

  datatype Outcome = Approved(entry: LogEntry, target: LogTarget) | Declined(reason: Reason)

  /** The hook's exit status: 0 approves the call, 1 hands it to the
      user. */
  function ExitCode(o: Outcome): (code: int)
    ensures code == 0 <==> o.Approved?
    ensures code == 0 || code == 1
  {
    if o.Approved? then 0 else 1
  }

  /** What the hook prints on standard output. */
  function Stdout(o: Outcome): (out: string)
    ensures out != "" <==> ExitCode(o) == 0
    ensures o.Approved? ==> out == SafeWord + "\n"
  {
    if o.Approved? then SafeWord + "\n" else ""
  }

  /** The hook's inputs from its environment. */
  datatype Inputs = Inputs(
    hookData: Option<string>,       // the environment variable, None when unset
    config: Option<Json>,           // the configuration file, None when absent or not JSON
    judgeInstalled: bool,           // whether the judge is found on the path
    judge: Prompt -> JudgeRun,      // running the judge on a prompt
    loads: string -> Option<Json>,  // `json.loads`, None where it raises
    dumps: Json -> string,          // `json.dumps`
    pyStr: Json -> string,          // `str`
    home: string -> Option<Dir>)    // a user's home directory ("" for the current user), None where it cannot be determined

  /** The gates before the judge runs: the hook data must be present and
      decode, the configuration must be truthy, auto-approval must be
      enabled in it, and the judge must be installed. On success, the
      decoded data and the auto-approval section. */
  function Gates(inp: Inputs): (r: Result)
    ensures inp.hookData.None? || inp.hookData.value == "" ==> r == Fail(NoHookData)
    ensures inp.hookData.Some? && inp.hookData.value != "" && inp.loads(inp.hookData.value).None? ==> r == Fail(InvalidHookJson)
    ensures (&& inp.hookData.Some? && inp.hookData.value != "" && inp.loads(inp.hookData.value).Some?
             && (inp.config.None? || !PyTruthy(inp.config.value))) ==> r == Fail(NoConfig)
    ensures ConfigRead(inp) && !SectionRead(inp.config.value) ==> r == Fail(Crashed)
    ensures ConfigRead(inp) && SectionRead(inp.config.value) && !Enabled(inp.config.value) ==> r == Fail(Disabled)
    ensures ConfigRead(inp) && SectionRead(inp.config.value) && Enabled(inp.config.value) && !inp.judgeInstalled ==>
              r == Fail(JudgeMissing)
    ensures r.Pass? <==>
              ConfigRead(inp) && SectionRead(inp.config.value) && Enabled(inp.config.value) && inp.judgeInstalled
    ensures r.Pass? ==>
              && inp.loads(inp.hookData.value) == Some(r.data)
              && Get(inp.config.value, "auto_approve", JObj(map[])) == Some(r.section)
              && r.section.JObj?
    ensures r.Fail? ==> r.reason != NotSafe
  {
    if inp.hookData.None? || inp.hookData.value == "" then Fail(NoHookData)
    else
      match inp.loads(inp.hookData.value)
      case None => Fail(InvalidHookJson)
      case Some(data) =>
        if inp.config.None? || !PyTruthy(inp.config.value) then Fail(NoConfig)
        else
          match Get(inp.config.value, "auto_approve", JObj(map[]))
          case None => Fail(Crashed)
          case Some(section) =>
            match Get(section, "enabled", JBool(false))
            case None => Fail(Crashed)
            case Some(enabled) =>
              if !PyTruthy(enabled) then Fail(Disabled)
              else if !inp.judgeInstalled then Fail(JudgeMissing)
              else Pass(data, section)
  }

  datatype Result = Pass(data: Json, section: Json) | Fail(reason: Reason)

  /** The hook data is present and decodes, and the configuration is
      truthy: the first three gates are open. */
  predicate ConfigRead(inp: Inputs) {
    && inp.hookData.Some? && inp.hookData.value != ""
    && inp.loads(inp.hookData.value).Some?
    && inp.config.Some? && PyTruthy(inp.config.value)
  }

  /** `config.get("auto_approve", {})` and `.get("enabled", …)` on it do not
      raise: both receivers are dicts. */
  predicate SectionRead(config: Json) {
    config.JObj? && Get(config, "auto_approve", JObj(map[])).value.JObj?
  }

  /** Auto-approval is switched on in a readable section. */
  predicate Enabled(config: Json)
    requires SectionRead(config)
  {
    PyTruthy(Get(Get(config, "auto_approve", JObj(map[])).value, "enabled", JBool(false)).value)
  }

  /** A home directory as `os.path.expanduser` yields it; an empty `HOME`
      yields the root, so it is never empty. */
  type Dir = s: string | s != "" witness "/"

  /** The leading part of `s` before its first `/`, all of `s` when it has
      none. */
  function UpToSlash(s: string): (r: string)
    ensures |r| <= |s| && r == s[..|r|]
    ensures '/' !in r
    ensures |r| == |s| || s[|r|] == '/'
  {
    if |s| == 0 || s[0] == '/' then "" else [s[0]] + UpToSlash(s[1..])
  }

  /** A name without `/` followed by a new component, or by nothing, is
      read back as that name. */
  lemma {:induction false} UpToSlashOf(user: string, rest: string)
    requires '/' !in user
    requires rest == [] || rest[0] == '/'
    ensures UpToSlash(user + rest) == user
    decreases |user|
  {
    if |user| > 0 {
      assert (user + rest)[1..] == user[1..] + rest;
      UpToSlashOf(user[1..], rest);
    }
  }

  /** `Path(path).expanduser()`: a leading `~` or `~name`, up to the first
      `/`, becomes that user's home directory; None where the home
      directory cannot be determined and pathlib raises RuntimeError. */
  function ExpandUser(path: string, home: string -> Option<Dir>): (r: Option<string>)
    ensures |path| == 0 || path[0] != '~' ==> r == Some(path)
    ensures r.Some? ==> r.value != "" || path == ""
  {
    if |path| == 0 || path[0] != '~' then Some(path)
    else
      var user := UpToSlash(path[1..]);
      match home(user)
      case None => None
      case Some(dir) => Some(dir + path[1 + |user|..])
  }

  /** The user name ends at the first `/`: `~user` followed by a rest that
      is empty or starts a new component expands to that user's home
      directory followed by the rest, and fails exactly when the home
      directory is unknown. */
  lemma ExpandUserOf(user: string, rest: string, home: string -> Option<Dir>)
    requires '/' !in user
    requires rest == [] || rest[0] == '/'
    ensures home(user).None? ==> ExpandUser("~" + user + rest, home).None?
    ensures home(user).Some? ==> ExpandUser("~" + user + rest, home) == Some(home(user).value + rest)
  {
    var path := "~" + user + rest;
    assert path[1..] == user + rest;
    UpToSlashOf(user, rest);
    assert path[1 + |user|..] == rest;
  }

  /** Where the approval is logged: the configured `log_file` when it is
      truthy, with a leading `~` expanded (None where it is not a string,
      or names a home directory that cannot be determined, and building
      the path raises), else the default. */
  function LogTargetOf(section: Json, home: string -> Option<Dir>): (t: Option<LogTarget>)
    requires section.JObj?
    ensures !TruthyKey(section, "log_file") ==> t == Some(DefaultLog)
    ensures TruthyKey(section, "log_file") && section.fields["log_file"].JStr? ==>
              var expanded := ExpandUser(section.fields["log_file"].s, home);
              && (expanded.None? ==> t.None?)
              && (expanded.Some? ==> t == Some(LogFile(expanded.value)))
    ensures TruthyKey(section, "log_file") && !section.fields["log_file"].JStr? ==> t.None?
    ensures t.Some? && t.value.LogFile? ==> t.value.path != ""
  {
    var file := Get(section, "log_file", JStr("")).value;
    if !PyTruthy(file) then Some(DefaultLog)
    else if file.JStr? then
      match ExpandUser(file.s, home)
      case None => None
      case Some(path) => Some(LogFile(path))
    else None
  }

  /** The hook's `main`: the gates, then the tool call, then the judge on
      the prompt built from it; approved exactly when the judge says SAFE
      and the log target can be built. */
  function Decide(inp: Inputs): (o: Outcome)
    ensures Gates(inp).Fail? ==> o == Declined(Gates(inp).reason)
    ensures Gates(inp).Pass? && ReadCall(Gates(inp).data, inp.pyStr).None? ==> o == Declined(Crashed)
    ensures Gates(inp).Pass? && ReadCall(Gates(inp).data, inp.pyStr).Some? ==>
              var c := ReadCall(Gates(inp).data, inp.pyStr).value;
              var target := LogTargetOf(Gates(inp).section, inp.home);
              && (JudgeWithCodex(true, inp.judge(PromptFor(c, inp))) != Some(Safe) ==> o == Declined(NotSafe))
              && (JudgeWithCodex(true, inp.judge(PromptFor(c, inp))) == Some(Safe) && target.None? ==>
                    o == Declined(Crashed))
              && (JudgeWithCodex(true, inp.judge(PromptFor(c, inp))) == Some(Safe) && target.Some? ==>
                    o == Approved(LogEntry(c.toolName, c.description, c.cwd, c.sessionId), target.value))
  {
    match Gates(inp)
    case Fail(reason) => Declined(reason)
    case Pass(data, section) =>
      match ReadCall(data, inp.pyStr)
      case None => Declined(Crashed)
      case Some(c) =>
        if JudgeWithCodex(inp.judgeInstalled, inp.judge(PromptFor(c, inp))) != Some(Safe) then Declined(NotSafe)
        else
          match LogTargetOf(section, inp.home)
          case None => Declined(Crashed)
          case Some(target) => Approved(LogEntry(c.toolName, c.description, c.cwd, c.sessionId), target)
  }

  function PromptFor(c: Call, inp: Inputs): Prompt {
    BuildPrompt(c.toolName, c.toolInput, c.cwd, c.description, inp.dumps, inp.pyStr)
  }

  /** The hook approves only on a SAFE verdict: a RISK verdict, no verdict
      (raised, non-zero status, any other last line) and every failed gate
      end with status 1 and print nothing. */
  lemma OnlySafeApproves(inp: Inputs)
    ensures ExitCode(Decide(inp)) == 0 ==>
              && inp.hookData.Some? && inp.hookData.value != ""
              && inp.loads(inp.hookData.value).Some?
              && inp.config.Some? && PyTruthy(inp.config.value)
              && inp.judgeInstalled
              && Gates(inp).Pass?
              && ReadCall(Gates(inp).data, inp.pyStr).Some?
              && var run := inp.judge(PromptFor(ReadCall(Gates(inp).data, inp.pyStr).value, inp));
                 run == Exited(0, run.stdout) && PyUpper(LastLine(run.stdout)) == SafeWord
    ensures ExitCode(Decide(inp)) == 1 <==> Stdout(Decide(inp)) == ""
  {
    var o := Decide(inp);
    if o.Approved? {
      var c := ReadCall(Gates(inp).data, inp.pyStr).value;
      var run := inp.judge(PromptFor(c, inp));
      assert JudgeWithCodex(true, run) == Some(Safe);
    }
  }

  /** And a SAFE verdict does approve: once the gates pass and the call `c`
      is read, a judge that exits 0 on this call's prompt with the reply
      SAFE, whatever whitespace surrounds it, makes the hook print SAFE and
      exit 0, unless the configured log file cannot be named or its home
      directory cannot be determined. */
  lemma SafeVerdictApproves(inp: Inputs, c: Call, stdout: string)
    requires Gates(inp).Pass? && ReadCall(Gates(inp).data, inp.pyStr) == Some(c)
    requires inp.judge(PromptFor(c, inp)) == Exited(0, stdout) && PyStrip(stdout) == SafeWord
    requires LogTargetOf(Gates(inp).section, inp.home).Some?
    ensures ExitCode(Decide(inp)) == 0
    ensures Stdout(Decide(inp)) == SafeWord + "\n"
  {
    SafeReplyIsSafe(stdout);
  }

  /** The reply SAFE, with any surrounding whitespace, is the Safe verdict. */
  lemma SafeReplyIsSafe(stdout: string)
    requires PyStrip(stdout) == SafeWord
    ensures JudgeWithCodex(true, Exited(0, stdout)) == Some(Safe)
  {
    assert forall i :: 0 <= i < |SafeWord| ==> SafeWord[i] != '\n' && PyUpperChar(SafeWord[i]) == SafeWord[i];
    assert PyUpper(SafeWord) == SafeWord;
    VerdictOfOneLine(stdout);
  }

  /** A judge that answers RISK, fails or cannot be read never approves,
      whatever else holds. */
  lemma NoSafeVerdictDeclines(inp: Inputs)
    requires forall p :: JudgeWithCodex(true, inp.judge(p)) != Some(Safe)
    ensures Decide(inp).Declined?
    ensures ExitCode(Decide(inp)) == 1
  {
  }
}
