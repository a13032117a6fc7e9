/** From findings to verdict: the secret scanner, the model's findings, and what is published. */
module Review {
  import opened Wrappers
  import opened Findings
  import opened Diff
  import opened Consensus
  import opened ConsensusLaws
  import Feedback

  // ---- scanning the added lines ----

  /** What a scanner reports of one added line of the file at a path. */
  type Scanner = (string, AddedLine) -> seq<Finding>

  function ScanLines(path: string, added: seq<AddedLine>, scan: Scanner): seq<Finding> {
    if added == [] then [] else ScanLines(path, added[..|added| - 1], scan) + scan(path, added[|added| - 1])
  }

  /** The findings of all lines, in the order of the diff. */
  function ScanFiles(files: seq<FileRecord>, scan: Scanner): seq<Finding> {
    if files == [] then []
    else ScanFiles(files[..|files| - 1], scan) + ScanLines(files[|files| - 1].path, files[|files| - 1].added, scan)
  }

  predicate AllValid(fs: seq<Finding>) {
    forall f | f in fs :: f.Valid()
  }

  /** The position of an added line is one that a finding can carry. */
  predicate InRange(path: string, line: AddedLine) {
    |path| <= 1024 && line.newLine >= 1
  }

  /** A finding is out of its ranges exactly when its position is. */
  ghost predicate Positioned(scan: Scanner) {
    forall path, line, f | f in scan(path, line) :: f.Valid() <==> InRange(path, line)
  }

  lemma {:induction false} LineReported(path: string, added: seq<AddedLine>, scan: Scanner, k: nat, f: Finding)
    requires k < |added| && f in scan(path, added[k])
    ensures f in ScanLines(path, added, scan)
  {
    if k < |added| - 1 { LineReported(path, added[..|added| - 1], scan, k, f); }
  }

  lemma {:induction false} LineFound(path: string, added: seq<AddedLine>, scan: Scanner, f: Finding) returns (k: nat)
    requires f in ScanLines(path, added, scan)
    ensures k < |added| && f in scan(path, added[k])
  {
    if f in scan(path, added[|added| - 1]) {
      k := |added| - 1;
    } else {
      k := LineFound(path, added[..|added| - 1], scan, f);
    }
  }

  lemma {:induction false} FileReported(files: seq<FileRecord>, scan: Scanner, i: nat, f: Finding)
    requires i < |files| && f in ScanLines(files[i].path, files[i].added, scan)
    ensures f in ScanFiles(files, scan)
  {
    if i < |files| - 1 { FileReported(files[..|files| - 1], scan, i, f); }
  }

  lemma {:induction false} FileFound(files: seq<FileRecord>, scan: Scanner, f: Finding) returns (i: nat)
    requires f in ScanFiles(files, scan)
    ensures i < |files| && f in ScanLines(files[i].path, files[i].added, scan)
  {
    if f in ScanLines(files[|files| - 1].path, files[|files| - 1].added, scan) {
      i := |files| - 1;
    } else {
      i := FileFound(files[..|files| - 1], scan, f);
    }
  }

  /** The scanner reports something of that line. */
  predicate Hit(files: seq<FileRecord>, scan: Scanner, i: int, k: int) {
    0 <= i < |files| && 0 <= k < |files[i].added| && scan(files[i].path, files[i].added[k]) != []
  }

  /** Every line of which the scanner reports something has a position in range. */
  ghost predicate HitsInRange(files: seq<FileRecord>, scan: Scanner) {
    forall i, k {:trigger Hit(files, scan, i, k)} | Hit(files, scan, i, k) :: InRange(files[i].path, files[i].added[k])
  }

  lemma HitReported(files: seq<FileRecord>, scan: Scanner, i: nat, k: nat, f: Finding)
    requires i < |files| && k < |files[i].added| && f in scan(files[i].path, files[i].added[k])
    ensures f in ScanFiles(files, scan)
  {
    LineReported(files[i].path, files[i].added, scan, k, f);
    FileReported(files, scan, i, f);
  }

  lemma HitFound(files: seq<FileRecord>, scan: Scanner, f: Finding) returns (i: nat, k: nat)
    requires f in ScanFiles(files, scan)
    ensures i < |files| && k < |files[i].added| && f in scan(files[i].path, files[i].added[k])
  {
    i := FileFound(files, scan, f);
    k := LineFound(files[i].path, files[i].added, scan, f);
  }

  /** A scan goes through exactly when every line it reports something of has a position in range. */
  lemma ScanSucceedsIff(files: seq<FileRecord>, scan: Scanner)
    requires Positioned(scan)
    ensures AllValid(ScanFiles(files, scan)) <==> HitsInRange(files, scan)
  {
    if AllValid(ScanFiles(files, scan)) {
      forall i, k | Hit(files, scan, i, k) ensures InRange(files[i].path, files[i].added[k]) {
        var f := scan(files[i].path, files[i].added[k])[0];
        HitReported(files, scan, i, k, f);
      }
    } else {
      var f :| f in ScanFiles(files, scan) && !f.Valid();
      var i, k := HitFound(files, scan, f);
      assert Hit(files, scan, i, k);
    }
  }

  // ---- the rule table ----

  /** `languages`: empty for all. `matches` stands for the pattern's search. */
  datatype Rule = Rule(category: string, severity: Severity, confidence: real, title: string, languages: set<string>,
                       matches: string -> bool)
  {
    predicate Applies(language: string, text: string) {
      (languages == {} || language in languages) && matches(text)
    }
  }

  function RuleFinding(rule: Rule, agent: string, dimension: Dimension, path: string, line: AddedLine): Finding {
    Finding(agent, dimension, rule.category, rule.severity, rule.confidence, rule.title, Some(path), Some(line.newLine),
            Deterministic)
  }

  function RulesOnLine(rules: seq<Rule>, agent: string, dimension: Dimension, language: string, path: string,
                       line: AddedLine): seq<Finding>
  {
    if rules == [] then []
    else
      var rule := rules[|rules| - 1];
      RulesOnLine(rules[..|rules| - 1], agent, dimension, language, path, line)
      + if rule.Applies(language, line.text) then [RuleFinding(rule, agent, dimension, path, line)] else []
  }

  /** The rule table as a scanner; `languageOf` guesses a file's language from its path. */
  function RuleScan(rules: seq<Rule>, agent: string, dimension: Dimension, languageOf: string -> string): Scanner {
    (path: string, line: AddedLine) => RulesOnLine(rules, agent, dimension, languageOf(path), path, line)
  }

  /** The confidences written in the table are confidences. */
  predicate SaneRules(rules: seq<Rule>) {
    forall i | 0 <= i < |rules| :: 0.0 <= rules[i].confidence <= 1.0
  }

  lemma {:induction false} RulesOnLineFacts(rules: seq<Rule>, agent: string, dimension: Dimension, language: string,
                                            path: string, line: AddedLine)
    requires SaneRules(rules)
    ensures forall f | f in RulesOnLine(rules, agent, dimension, language, path, line) ::
              f.source == Deterministic && (f.Valid() <==> InRange(path, line))
    ensures RulesOnLine(rules, agent, dimension, language, path, line) != [] <==>
            exists i :: 0 <= i < |rules| && rules[i].Applies(language, line.text)
  {
    if rules != [] {
      RulesOnLineFacts(rules[..|rules| - 1], agent, dimension, language, path, line);
    }
  }

  lemma RuleScanPositioned(rules: seq<Rule>, agent: string, dimension: Dimension, languageOf: string -> string)
    requires SaneRules(rules)
    ensures Positioned(RuleScan(rules, agent, dimension, languageOf))
  {
    forall path, line, f | f in RuleScan(rules, agent, dimension, languageOf)(path, line)
      ensures f.Valid() <==> InRange(path, line)
    {
      RulesOnLineFacts(rules, agent, dimension, languageOf(path), path, line);
    }
  }

  /** A finding outside its ranges raises, and takes the whole scan with it. */
  method ScanRules(files: seq<FileRecord>, rules: seq<Rule>, agent: string, dimension: Dimension,
                   languageOf: string -> string, ghost scan: Scanner)
    returns (out: Result<seq<Finding>, Finding>)
    requires scan == RuleScan(rules, agent, dimension, languageOf)
    ensures AllValid(ScanFiles(files, scan)) ==> out == Ok(ScanFiles(files, scan))
    ensures !AllValid(ScanFiles(files, scan)) ==> out.Err? && out.error in ScanFiles(files, scan) && !out.error.Valid()
  {
    var found: seq<Finding> := [];
    for i := 0 to |files|
      invariant found == ScanFiles(files[..i], scan) && AllValid(found)
    {
      var inFile := ScanRulesInFile(files[i], rules, agent, dimension, languageOf, scan);
      assert files[..i + 1][..i] == files[..i];
      if inFile.Err? {
        FileReported(files, scan, i, inFile.error);
        return inFile;
      }
      found := found + inFile.value;
    }
    assert files[..|files|] == files;
    return Ok(found);
  }

  /** The loop over the lines of one file. */
  method ScanRulesInFile(file: FileRecord, rules: seq<Rule>, agent: string, dimension: Dimension,
                         languageOf: string -> string, ghost scan: Scanner)
    returns (out: Result<seq<Finding>, Finding>)
    requires scan == RuleScan(rules, agent, dimension, languageOf)
    ensures out.Ok? ==> out.value == ScanLines(file.path, file.added, scan) && AllValid(out.value)
    ensures out.Err? ==> out.error in ScanLines(file.path, file.added, scan) && !out.error.Valid()
  {
    var language := languageOf(file.path);
    var found: seq<Finding> := [];
    for k := 0 to |file.added|
      invariant found == ScanLines(file.path, file.added[..k], scan) && AllValid(found)
    {
      var onLine := MatchRules(rules, agent, dimension, language, file.path, file.added[k]);
      assert file.added[..k + 1][..k] == file.added[..k];
      if onLine.Err? {
        LineReported(file.path, file.added, scan, k, onLine.error);
        return onLine;
      }
      found := found + onLine.value;
    }
    assert file.added[..|file.added|] == file.added;
    return Ok(found);
  }

  /** The innermost loop: the rules, one after another, on one line. */
  method MatchRules(rules: seq<Rule>, agent: string, dimension: Dimension, language: string, path: string,
                    line: AddedLine)
    returns (out: Result<seq<Finding>, Finding>)
    ensures out.Ok? ==> out.value == RulesOnLine(rules, agent, dimension, language, path, line) && AllValid(out.value)
    ensures out.Err? ==> out.error in RulesOnLine(rules, agent, dimension, language, path, line) && !out.error.Valid()
  {
    var found: seq<Finding> := [];
    for n := 0 to |rules|
      invariant found == RulesOnLine(rules[..n], agent, dimension, language, path, line) && AllValid(found)
    {
      var rule := rules[n];
      assert rules[..n + 1][..n] == rules[..n];
      if rule.languages != {} && language !in rule.languages {
        continue;
      }
      if rule.matches(line.text) {
        var f := RuleFinding(rule, agent, dimension, path, line);
        if !f.Valid() {
          RuleMember(rules, agent, dimension, language, path, line, n);
          return Err(f);
        }
        found := found + [f];
      }
    }
    assert rules[..|rules|] == rules;
    return Ok(found);
  }

  lemma {:induction false} RuleMember(rules: seq<Rule>, agent: string, dimension: Dimension, language: string,
                                      path: string, line: AddedLine, n: nat)
    requires n < |rules| && rules[n].Applies(language, line.text)
    ensures RuleFinding(rules[n], agent, dimension, path, line)
            in RulesOnLine(rules, agent, dimension, language, path, line)
  {
    if n < |rules| - 1 { RuleMember(rules[..|rules| - 1], agent, dimension, language, path, line, n); }
  }

  // ---- the secret scanner ----

  const SECRET_CONFIDENCE := 0.97

  function SecretFinding(path: string, line: nat, secretType: string): Finding {
    Finding("security", Security, "hardcoded-secret", Critical, SECRET_CONFIDENCE,
            "Hardcoded secret detected (" + secretType + ")", Some(path), Some(line), Deterministic)
  }

  predicate IsSecretFinding(f: Finding) {
    && f.dimension == Security && f.category == "hardcoded-secret" && f.severity == Critical
    && f.confidence == SECRET_CONFIDENCE && f.source == Deterministic
  }

  function SecretsOfTypes(path: string, line: nat, types: seq<string>): (fs: seq<Finding>)
    ensures |fs| == |types|
  {
    if types == [] then []
    else SecretsOfTypes(path, line, types[..|types| - 1]) + [SecretFinding(path, line, types[|types| - 1])]
  }

  /** One finding per type of secret on the line; `typesIn` finds the types. */
  function SecretScan(typesIn: string -> seq<string>): Scanner {
    (path: string, line: AddedLine) => SecretsOfTypes(path, line.newLine, typesIn(line.text))
  }

  lemma {:induction false} SecretsAt(path: string, line: nat, types: seq<string>, n: nat)
    requires n < |types|
    ensures SecretsOfTypes(path, line, types)[n] == SecretFinding(path, line, types[n])
  {
    if n < |types| - 1 { SecretsAt(path, line, types[..|types| - 1], n); }
  }

  lemma {:induction false} SecretsFacts(path: string, line: nat, types: seq<string>)
    ensures forall f | f in SecretsOfTypes(path, line, types) ::
              IsSecretFinding(f) && (f.Valid() <==> |path| <= 1024 && line >= 1)
  {
    if types != [] { SecretsFacts(path, line, types[..|types| - 1]); }
  }

  lemma SecretScanPositioned(typesIn: string -> seq<string>)
    ensures Positioned(SecretScan(typesIn))
  {
    forall path, line, f | f in SecretScan(typesIn)(path, line) ensures f.Valid() <==> InRange(path, line) {
      SecretsFacts(path, line.newLine, typesIn(line.text));
    }
  }

  /** A finding outside its ranges raises here as well. */
  method ScanSecrets(files: seq<FileRecord>, typesIn: string -> seq<string>, ghost scan: Scanner)
    returns (out: Result<seq<Finding>, Finding>)
    requires scan == SecretScan(typesIn)
    ensures AllValid(ScanFiles(files, scan)) ==> out == Ok(ScanFiles(files, scan))
    ensures !AllValid(ScanFiles(files, scan)) ==> out.Err? && out.error in ScanFiles(files, scan) && !out.error.Valid()
  {
    var found: seq<Finding> := [];
    for i := 0 to |files|
      invariant found == ScanFiles(files[..i], scan) && AllValid(found)
    {
      var inFile := ScanSecretsInFile(files[i], typesIn, scan);
      assert files[..i + 1][..i] == files[..i];
      if inFile.Err? {
        FileReported(files, scan, i, inFile.error);
        return inFile;
      }
      found := found + inFile.value;
    }
    assert files[..|files|] == files;
    return Ok(found);
  }

  /** The loop over the lines of one file. */
  method ScanSecretsInFile(file: FileRecord, typesIn: string -> seq<string>, ghost scan: Scanner)
    returns (out: Result<seq<Finding>, Finding>)
    requires scan == SecretScan(typesIn)
    ensures out.Ok? ==> out.value == ScanLines(file.path, file.added, scan) && AllValid(out.value)
    ensures out.Err? ==> out.error in ScanLines(file.path, file.added, scan) && !out.error.Valid()
  {
    var found: seq<Finding> := [];
    for k := 0 to |file.added|
      invariant found == ScanLines(file.path, file.added[..k], scan) && AllValid(found)
    {
      var onLine := ListSecrets(file.path, file.added[k].newLine, typesIn(file.added[k].text));
      assert file.added[..k + 1][..k] == file.added[..k];
      if onLine.Err? {
        LineReported(file.path, file.added, scan, k, onLine.error);
        return onLine;
      }
      found := found + onLine.value;
    }
    assert file.added[..|file.added|] == file.added;
    return Ok(found);
  }

  /** The innermost loop: the types of secret on one line. */
  method ListSecrets(path: string, line: nat, types: seq<string>) returns (out: Result<seq<Finding>, Finding>)
    ensures out.Ok? ==> out.value == SecretsOfTypes(path, line, types) && AllValid(out.value)
    ensures out.Err? ==> out.error in SecretsOfTypes(path, line, types) && !out.error.Valid()
  {
    var found: seq<Finding> := [];
    for n := 0 to |types|
      invariant found == SecretsOfTypes(path, line, types[..n]) && AllValid(found)
    {
      var f := SecretFinding(path, line, types[n]);
      assert types[..n + 1][..n] == types[..n];
      if !f.Valid() {
        SecretsAt(path, line, types, n);
        return Err(f);
      }
      found := found + [f];
    }
    assert types[..|types|] == types;
    return Ok(found);
  }

  // ---- findings claimed by the model ----

  const LLM_CAP := 0.9
  const MAX_LLM_FINDINGS := 50

  datatype LlmFinding = LlmFinding(
    category: string, severity: Severity, confidence: real, title: string, filePath: Option<string>, line: Option<nat>)
  {
    /** The range checks of the schema. */
    predicate Valid() {
      && 0.0 <= confidence <= 1.0
      && (line.Some? ==> line.value >= 1)
      && (filePath.Some? ==> |filePath.value| <= 1024)
    }
  }

  /**
   What comes of asking the model: no answer (no model, no budget, a failed call), an answer that is no
   JSON or holds no list, a list whose entries have the right fields or not, or an exception that nothing
   catches before the agent's own boundary.
   */
  datatype Answer =
    | NoAnswer
    | Unreadable
    | Items(items: seq<Option<LlmFinding>>)
    | Uncaught

  function Min(a: real, b: real): real {
    if a < b then a else b
  }

  /** Constrained to the diff's files, capped in confidence and marked as the model's. */
  function Constrained(lf: LlmFinding, agent: string, dimension: Dimension, validPaths: set<string>): Finding {
    var foreign := lf.filePath.Some? && lf.filePath.value !in validPaths;
    Finding(agent, dimension, lf.category, lf.severity, Min(lf.confidence, LLM_CAP), lf.title,
            if foreign then None else lf.filePath, if foreign then None else lf.line, Llm)
  }

  predicate Contained(f: Finding, validPaths: set<string>) {
    && f.source == Llm && f.confidence <= LLM_CAP && f.Valid()
    && (f.filePath.Some? ==> f.filePath.value in validPaths)
  }

  /** What remains of the entries, in order. */
  function Kept(items: seq<Option<LlmFinding>>, agent: string, dimension: Dimension,
                validPaths: set<string>): (fs: seq<Finding>)
    ensures |fs| <= |items|
  {
    if items == [] then []
    else
      var before, last := Kept(items[..|items| - 1], agent, dimension, validPaths), items[|items| - 1];
      if last.Some? && last.value.Valid() then before + [Constrained(last.value, agent, dimension, validPaths)]
      else before
  }

  /** The cap counts all entries, good or not. */
  function Capped(items: seq<Option<LlmFinding>>): seq<Option<LlmFinding>> {
    if |items| <= MAX_LLM_FINDINGS then items else items[..MAX_LLM_FINDINGS]
  }

  /** None: the exception goes on. */
  function ModelFindings(answer: Answer, agent: string, dimension: Dimension, validPaths: set<string>)
    : Option<seq<Finding>>
  {
    match answer
    case NoAnswer => Some([])
    case Unreadable => Some([])
    case Items(items) => Some(Kept(Capped(items), agent, dimension, validPaths))
    case Uncaught => None
  }

  lemma {:induction false} KeptAreContained(items: seq<Option<LlmFinding>>, agent: string, dimension: Dimension,
                                            validPaths: set<string>)
    ensures forall f | f in Kept(items, agent, dimension, validPaths) :: Contained(f, validPaths)
  {
    if items != [] { KeptAreContained(items[..|items| - 1], agent, dimension, validPaths); }
  }

  /** How many of the first n entries have the right fields, in range. */
  ghost function GoodAmong(items: seq<Option<LlmFinding>>, n: nat): nat
    requires n <= |items|
  {
    |set i | 0 <= i < n && items[i].Some? && items[i].value.Valid()|
  }

  lemma GoodAmongNext(items: seq<Option<LlmFinding>>, n: nat)
    requires n < |items|
    ensures GoodAmong(items, 0) == 0
    ensures GoodAmong(items, n + 1) ==
            GoodAmong(items, n) + if items[n].Some? && items[n].value.Valid() then 1 else 0
  {
    var before := set i | 0 <= i < n && items[i].Some? && items[i].value.Valid();
    var after := set i | 0 <= i < n + 1 && items[i].Some? && items[i].value.Valid();
    assert after == if items[n].Some? && items[n].value.Valid() then before + {n} else before;
  }

  /** The finding says what the entry says: its file if that is in the diff, and its line unless the file is not. */
  predicate Reports(f: Finding, lf: LlmFinding, agent: string, dimension: Dimension, validPaths: set<string>) {
    && f.agent == agent && f.dimension == dimension && f.source == Llm
    && f.category == lf.category && f.severity == lf.severity && f.title == lf.title
    && f.confidence == (if lf.confidence <= 0.9 then lf.confidence else 0.9)
    && match lf.filePath
       case None => f.filePath.None? && f.line == lf.line
       case Some(path) =>
         if path in validPaths then f.filePath == Some(path) && f.line == lf.line
         else f.filePath.None? && f.line.None?
  }

  /** Each good entry among the first fifty is reported, in order, and nothing else is. */
  ghost predicate ReportsGood(items: seq<Option<LlmFinding>>, fs: seq<Finding>, n: nat, agent: string,
                              dimension: Dimension, validPaths: set<string>)
    requires n <= |items|
  {
    && |fs| == GoodAmong(items, n)
    && forall i: nat {:trigger GoodAmong(items, i)} | i < n && items[i].Some? && items[i].value.Valid() ::
         GoodAmong(items, i) < |fs| &&
         Reports(fs[GoodAmong(items, i)], items[i].value, agent, dimension, validPaths)
  }

  lemma ConstrainedReports(lf: LlmFinding, agent: string, dimension: Dimension, validPaths: set<string>)
    ensures Reports(Constrained(lf, agent, dimension, validPaths), lf, agent, dimension, validPaths)
  {
  }

  lemma ReportsNext(items: seq<Option<LlmFinding>>, fs: seq<Finding>, more: seq<Finding>, n: nat, agent: string,
                    dimension: Dimension, validPaths: set<string>)
    requires n < |items| && ReportsGood(items, fs, n, agent, dimension, validPaths)
    requires if items[n].Some? && items[n].value.Valid()
             then |more| == 1 && Reports(more[0], items[n].value, agent, dimension, validPaths)
             else more == []
    ensures ReportsGood(items, fs + more, n + 1, agent, dimension, validPaths)
  {
    GoodAmongNext(items, n);
  }

  lemma KeptNext(items: seq<Option<LlmFinding>>, n: nat, agent: string, dimension: Dimension, validPaths: set<string>)
    requires n < |items|
    ensures Kept(items[..n + 1], agent, dimension, validPaths) ==
            Kept(items[..n], agent, dimension, validPaths)
            + if items[n].Some? && items[n].value.Valid()
              then [Constrained(items[n].value, agent, dimension, validPaths)] else []
  {
    assert items[..n + 1][..n] == items[..n];
  }

  lemma OneMoreReported(items: seq<Option<LlmFinding>>, n: nat, agent: string, dimension: Dimension,
                        validPaths: set<string>, fs: seq<Finding>, last: Option<LlmFinding>)
    requires n < |items| && last == items[n] && fs == Kept(items[..n], agent, dimension, validPaths)
    requires ReportsGood(items, fs, n, agent, dimension, validPaths)
    ensures ReportsGood(items, Kept(items[..n + 1], agent, dimension, validPaths), n + 1, agent, dimension, validPaths)
  {
    KeptNext(items, n, agent, dimension, validPaths);
    var more := if last.Some? && last.value.Valid()
      then [Constrained(last.value, agent, dimension, validPaths)] else [];
    if more != [] { ConstrainedReports(last.value, agent, dimension, validPaths); }
    ReportsNext(items, fs, more, n, agent, dimension, validPaths);
  }

  lemma {:induction false} KeptReportsGood(items: seq<Option<LlmFinding>>, n: nat, agent: string,
                                           dimension: Dimension, validPaths: set<string>)
    requires n <= |items|
    ensures ReportsGood(items, Kept(items[..n], agent, dimension, validPaths), n, agent, dimension, validPaths)
  {
    if n == 0 {
      assert GoodAmong(items, 0) == 0;
    } else {
      KeptReportsGood(items, n - 1, agent, dimension, validPaths);
      OneMoreReported(items, n - 1, agent, dimension, validPaths, Kept(items[..n - 1], agent, dimension, validPaths),
                      items[n - 1]);
    }
  }

  /** A well-formed entry in range among the first fifty is reported, behind those of the good entries before it. */
  lemma GoodClaimReported(items: seq<Option<LlmFinding>>, i: nat, lf: LlmFinding, agent: string,
                          dimension: Dimension, validPaths: set<string>, fs: seq<Finding>)
    requires i < |items| && i < 50 && items[i] == Some(lf)
    requires 0.0 <= lf.confidence <= 1.0 && lf.line != Some(0)
    requires lf.filePath.None? || |lf.filePath.value| <= 1024
    requires ModelFindings(Items(items), agent, dimension, validPaths) == Some(fs)
    ensures GoodAmong(items, i) < |fs| && Reports(fs[GoodAmong(items, i)], lf, agent, dimension, validPaths)
  {
    var n := if |items| <= 50 then |items| else 50;
    assert items[..|items|] == items;
    KeptReportsGood(items, n, agent, dimension, validPaths);
  }

  /** An entry out of its ranges is dropped: everything reported comes from a good entry. */
  lemma OnlyGoodClaimsReported(items: seq<Option<LlmFinding>>, agent: string, dimension: Dimension,
                               validPaths: set<string>, fs: seq<Finding>, j: nat)
    returns (i: nat)
    requires ModelFindings(Items(items), agent, dimension, validPaths) == Some(fs) && j < |fs|
    ensures i < |items| && i < 50 && GoodAmong(items, i) == j
    ensures items[i].Some? && Reports(fs[j], items[i].value, agent, dimension, validPaths)
    ensures 0.0 <= items[i].value.confidence <= 1.0 && items[i].value.line != Some(0)
    ensures items[i].value.filePath.None? || |items[i].value.filePath.value| <= 1024
  {
    var n := if |items| <= 50 then |items| else 50;
    assert items[..|items|] == items;
    KeptReportsGood(items, n, agent, dimension, validPaths);
    i := GoodAtCount(items, n, j);
  }

  lemma {:induction false} GoodAtCount(items: seq<Option<LlmFinding>>, n: nat, j: nat) returns (i: nat)
    requires n <= |items| && j < GoodAmong(items, n)
    ensures i < n && items[i].Some? && items[i].value.Valid() && GoodAmong(items, i) == j
  {
    assert n > 0;
    GoodAmongNext(items, n - 1);
    if j < GoodAmong(items, n - 1) {
      i := GoodAtCount(items, n - 1, j);
    } else {
      i := n - 1;
    }
  }

  method ParseLlmFindings(answer: Answer, agent: string, dimension: Dimension, validPaths: set<string>)
    returns (out: Option<seq<Finding>>)
    ensures out == ModelFindings(answer, agent, dimension, validPaths)
    ensures out.Some? ==> |out.value| <= MAX_LLM_FINDINGS
    ensures out.Some? ==> forall f | f in out.value :: Contained(f, validPaths)
    ensures answer.Items? ==>
              out.Some? && ReportsGood(answer.items, out.value, if |answer.items| <= 50 then |answer.items| else 50,
                                       agent, dimension, validPaths)
    ensures answer.NoAnswer? || answer.Unreadable? ==> out == Some([])
  {
    if answer.Uncaught? {
      return None;
    }
    var findings: seq<Finding> := [];
    if answer.Items? {
      var first := Capped(answer.items);
      for i := 0 to |first|
        invariant findings == Kept(first[..i], agent, dimension, validPaths)
      {
        assert first[..i + 1][..i] == first[..i];
        if first[i].Some? && first[i].value.Valid() {
          findings := findings + [Constrained(first[i].value, agent, dimension, validPaths)];
        }
      }
      assert first[..|first|] == first;
      KeptAreContained(first, agent, dimension, validPaths);
      assert first == answer.items[..|first|];
      KeptReportsGood(answer.items, |first|, agent, dimension, validPaths);
    }
    return Some(findings);
  }

  /** Fifty malformed entries hide every good one behind them. */
  lemma MalformedEntriesHideGood(items: seq<Option<LlmFinding>>, agent: string, dimension: Dimension,
                                 validPaths: set<string>)
    requires |items| >= MAX_LLM_FINDINGS && forall i | 0 <= i < MAX_LLM_FINDINGS :: items[i].None?
    ensures ModelFindings(Items(items), agent, dimension, validPaths) == Some([])
  {
    NothingKept(Capped(items), agent, dimension, validPaths);
  }

  lemma {:induction false} NothingKept(items: seq<Option<LlmFinding>>, agent: string, dimension: Dimension,
                                       validPaths: set<string>)
    requires forall i | 0 <= i < |items| :: items[i].None?
    ensures Kept(items, agent, dimension, validPaths) == []
  {
    if items != [] { NothingKept(items[..|items| - 1], agent, dimension, validPaths); }
  }

  // ---- the security agent ----

  /** What the agent looks at. */
  datatype SecurityInput = SecurityInput(files: seq<FileRecord>, rules: seq<Rule>, languageOf: string -> string,
                                         typesIn: string -> seq<string>, answer: Answer)
  {
    function RuleFindings(): seq<Finding> {
      ScanFiles(files, RuleScan(rules, "security", Security, languageOf))
    }

    function Secrets(): seq<Finding> {
      ScanFiles(files, SecretScan(typesIn))
    }

    function Paths(): set<string> {
      set i | 0 <= i < |files| :: files[i].path
    }

    function Claims(): Option<seq<Finding>> {
      ModelFindings(answer, "security", Security, Paths())
    }

    /** What the agent contributes to the review: an exception in any of its three parts takes the others along. */
    function Contribution(): seq<Finding> {
      if AllValid(RuleFindings()) && AllValid(Secrets()) && Claims().Some?
      then RuleFindings() + Secrets() + Claims().value
      else []
    }

    /** Line k of file i holds a secret, or a rule matches it. */
    predicate Notable(i: int, k: int) {
      && 0 <= i < |files| && 0 <= k < |files[i].added|
      && (typesIn(files[i].added[k].text) != []
          || exists n :: 0 <= n < |rules| && rules[n].Applies(languageOf(files[i].path), files[i].added[k].text))
    }

    /** Every line with a secret or a rule match has a position in range, and the model pass raises nothing. */
    ghost predicate GoesThrough() {
      && !answer.Uncaught?
      && forall i, k {:trigger Notable(i, k)} | Notable(i, k) :: InRange(files[i].path, files[i].added[k])
    }
  }

  /** The agent's run, and the boundary around it that turns an exception into an empty contribution. */
  method RunSecurityAgent(x: SecurityInput) returns (findings: seq<Finding>)
    ensures findings == x.Contribution()
  {
    var rules := ScanRules(x.files, x.rules, "security", Security, x.languageOf,
                           RuleScan(x.rules, "security", Security, x.languageOf));
    if rules.Err? {
      return [];
    }
    var secrets := ScanSecrets(x.files, x.typesIn, SecretScan(x.typesIn));
    if secrets.Err? {
      return [];
    }
    var claims := ParseLlmFindings(x.answer, "security", Security, x.Paths());
    if claims.None? {
      return [];
    }
    return rules.value + secrets.value + claims.value;
  }

  lemma NotableIsHit(x: SecurityInput, i: int, k: int)
    requires SaneRules(x.rules)
    ensures x.Notable(i, k) <==>
            Hit(x.files, RuleScan(x.rules, "security", Security, x.languageOf), i, k) || Hit(x.files,
              SecretScan(x.typesIn), i, k)
  {
    if 0 <= i < |x.files| && 0 <= k < |x.files[i].added| {
      var path, line := x.files[i].path, x.files[i].added[k];
      RulesOnLineFacts(x.rules, "security", Security, x.languageOf(path), path, line);
    }
  }

  /**
   All three parts of the agent go through exactly when the notable lines are in range and the model pass is
   quiet.
   */
  lemma AgentSucceedsIff(x: SecurityInput)
    requires SaneRules(x.rules)
    ensures AllValid(x.RuleFindings()) && AllValid(x.Secrets()) && x.Claims().Some? <==> x.GoesThrough()
  {
    var rules, secrets := RuleScan(x.rules, "security", Security, x.languageOf), SecretScan(x.typesIn);
    RuleScanPositioned(x.rules, "security", Security, x.languageOf);
    SecretScanPositioned(x.typesIn);
    ScanSucceedsIff(x.files, rules);
    ScanSucceedsIff(x.files, secrets);
    forall i, k ensures x.Notable(i, k) <==> Hit(x.files, rules, i, k) || Hit(x.files, secrets, i, k) {
      NotableIsHit(x, i, k);
    }
  }

  /**
   Given a diff with a secret, the agent reports its secrets if and only if every line with a secret or a
   rule match has a position in range and the model pass raises nothing; otherwise it reports nothing.
   */
  lemma SecretsReportedIff(x: SecurityInput)
    requires SaneRules(x.rules) && x.Secrets() != []
    ensures (forall f | f in x.Secrets() :: f in x.Contribution()) <==> x.GoesThrough()
    ensures !x.GoesThrough() ==> x.Contribution() == []
  {
    AgentSucceedsIff(x);
    assert x.Secrets()[0] in x.Secrets();
  }

  // ---- the verdict ----

  datatype Event = Approve | RequestChanges | Comment

  datatype Check = Success | Failure

  datatype Outcome = Outcome(consensus: ConsensusResult, autoApproved: bool, event: Event, check: Check)

  /**
   Approval needs an eligible pull request and nothing to post; a blocking consensus requests changes and
   fails the check.
   */
  ghost predicate Concludes(findings: seq<Finding>, adjustments: Adjustments, autoApproveEligible: bool, o: Outcome) {
    && o.consensus == ConsensusOf(findings, adjustments)
    && (o.event == Approve <==> o.autoApproved)
    && (o.event == RequestChanges <==> o.consensus.blocking)
    && (o.check == Failure <==> o.consensus.blocking)
    && (o.autoApproved <==> autoApproveEligible && forall x | x in o.consensus.items :: x.gate != Post)
  }

  /** The end of `run_review` and `publish_review`: an agent that failed contributed no list. */
  method Conclude(agentFindings: seq<seq<Finding>>, insights: seq<Finding>, adjustments: Adjustments,
                  autoApproveEligible: bool)
    returns (o: Outcome)
    ensures Concludes(Merged(agentFindings) + insights, adjustments, autoApproveEligible, o)
  {
    var findings: seq<Finding> := [];
    for i := 0 to |agentFindings|
      invariant findings == Merged(agentFindings[..i])
    {
      assert agentFindings[..i + 1][..i] == agentFindings[..i];
      findings := findings + agentFindings[i];
    }
    assert agentFindings[..|agentFindings|] == agentFindings;
    var consensus := BuildConsensus(findings + insights, adjustments);
    var autoApproved := autoApproveEligible && !consensus.blocking && consensus.Posted() == [];
    var event := if autoApproved then Approve else if consensus.blocking then RequestChanges else Comment;
    o := Outcome(consensus, autoApproved, event, if consensus.blocking then Failure else Success);
  }

  function Merged(lists: seq<seq<Finding>>): seq<Finding> {
    if lists == [] then [] else Merged(lists[..|lists| - 1]) + lists[|lists| - 1]
  }

  // ---- a detected secret always blocks ----

  lemma SecretMargin(c: real, b: real, m: real)
    requires c >= SECRET_CONFIDENCE && b >= 1.0 && m >= Feedback.FLOOR
    ensures c * 1.30 * 1.00 * b * m >= HIGH_IMPACT_THRESHOLD
  {
    var x := c * 1.30 * 1.00;
    MulMono(x, 1.0, b);
    MulMono(x * b, Feedback.FLOOR, m);
  }

  lemma DetectorWeight(r: Finding, n: nat, adj: Adjustments)
    requires r.dimension == Security && r.source == Deterministic && r.confidence >= SECRET_CONFIDENCE && n >= 1
    requires Multiplier(adj, r.category) >= Feedback.FLOOR
    ensures Weigh(r, n, adj) >= HIGH_IMPACT_THRESHOLD
  {
    SecretMargin(r.confidence, Boost(n), Multiplier(adj, r.category));
    assert Base(r) == r.confidence * 1.30 * 1.00;
  }

  /** In range, and not claimed by the model with more confidence than the cap. */
  predicate InBounds(f: Finding) {
    f.Valid() && (f.source == Llm ==> f.confidence <= LLM_CAP)
  }

  /** The finding that stands for a detected secret is as grave and as sure as the detector's own, and no model's. */
  lemma SecretRepresentative(fs: seq<Finding>, s: Finding, k: Key)
    requires s in fs && IsSecretFinding(s) && k == s.DedupeKey()
    requires forall f | f in fs && f.DedupeKey() == k :: InBounds(f)
    ensures Group(fs, k) != []
    ensures Rep(Group(fs, k)).severity == Critical && Rep(Group(fs, k)).dimension == Security
    ensures Rep(Group(fs, k)).source != Llm && Rep(Group(fs, k)).confidence >= SECRET_CONFIDENCE
    ensures Rep(Group(fs, k)) in fs && Rep(Group(fs, k)).DedupeKey() == k
  {
    GroupFacts(fs, k);
    assert s in Group(fs, k);
    RepUnbeaten(fs, k);
    var r := Rep(Group(fs, k));
    assert !Outranks(s, r);
    assert r.severity.Weight() == 12.0;
    WeightInjective(r.severity, Critical);
  }

  /**
   The item of a detected secret blocks exactly when no finding of mixed source stands for it, or that one
   weighs enough itself: detector and model findings and learned feedback can never keep it from blocking.
   */
  lemma SecretItemBlocksIff(fs: seq<Finding>, s: Finding, k: Key, adj: Adjustments)
    requires s in fs && IsSecretFinding(s) && k == s.DedupeKey() && Damping(adj, Feedback.FLOOR)
    requires forall f | f in fs && f.DedupeKey() == k :: InBounds(f)
    ensures Group(fs, k) != []
    ensures Blocks(fs, k, ByFeedback(adj)) <==>
            Rep(Group(fs, k)).source != Hybrid
            || Weigh(Rep(Group(fs, k)), |Agents(Group(fs, k))|, adj) >= HIGH_IMPACT_THRESHOLD
  {
    SecretRepresentative(fs, s, k);
    var g := Group(fs, k);
    assert g[0].agent in Agents(g);
    if Rep(g).source != Hybrid { DetectorWeight(Rep(g), |Agents(g)|, adj); }
    ItemWeighs(fs, k, ByFeedback(adj));
  }

  lemma ItemWeighs(fs: seq<Finding>, k: Key, w: Weigher)
    requires Group(fs, k) != [] && HighImpact(Rep(Group(fs, k)).severity)
    ensures Blocks(fs, k, w) <==> w(Rep(Group(fs, k)), |Agents(Group(fs, k))|) >= HIGH_IMPACT_THRESHOLD
  {
  }

  /** A finding of mixed source stands for the identity k and weighs too little to block. */
  ghost predicate MixedHides(fs: seq<Finding>, k: Key, adj: Adjustments) {
    && Group(fs, k) != [] && Rep(Group(fs, k)).source == Hybrid
    && Weigh(Rep(Group(fs, k)), |Agents(Group(fs, k))|, adj) < HIGH_IMPACT_THRESHOLD
  }

  /**
   Whatever else is reported and whatever feedback was learned, a detected secret blocks the review,
   unless a finding of mixed source, which nothing in the service creates, hides it.
   */
  lemma SecretBlocks(fs: seq<Finding>, s: Finding, adj: Adjustments)
    requires s in fs && IsSecretFinding(s) && Damping(adj, Feedback.FLOOR)
    requires forall f | f in fs && f.DedupeKey() == s.DedupeKey() :: InBounds(f)
    ensures ConsensusOf(fs, adj).blocking || MixedHides(fs, s.DedupeKey(), adj)
  {
    var k := s.DedupeKey();
    SecretItemBlocksIff(fs, s, k, adj);
    BlockingIff(fs, ByFeedback(adj));
  }

  lemma {:induction false} MergedHolds(lists: seq<seq<Finding>>, i: nat, f: Finding)
    requires i < |lists| && f in lists[i]
    ensures f in Merged(lists)
  {
    if i < |lists| - 1 { MergedHolds(lists[..|lists| - 1], i, f); }
  }

  lemma {:induction false} MergedOnly(lists: seq<seq<Finding>>, f: Finding) returns (i: nat)
    requires f in Merged(lists)
    ensures i < |lists| && f in lists[i]
  {
    i := |lists| - 1;
    if f !in lists[i] { i := MergedOnly(lists[..i], f); }
  }

  /** The multipliers learned from a feedback history. */
  function LearnedFrom(log: seq<Feedback.Entry>, scope: Feedback.Scope, minSamples: int): Adjustments {
    Feedback.Adjusted(Feedback.StatsOf(log, scope), minSamples)
  }

  /**
   With a secret among one agent's findings, whatever the other agents, the model and the feedback history
   say, the review requests changes, fails the check and is not approved, unless a mixed finding hides it.
   */
  lemma SecretIsNeverApproved(lists: seq<seq<Finding>>, insights: seq<Finding>, i: nat, s: Finding,
                              adj: Adjustments, log: seq<Feedback.Entry>, scope: Feedback.Scope, minSamples: int,
                              eligible: bool, o: Outcome)
    requires i < |lists| && s in lists[i] && IsSecretFinding(s)
    requires forall f | f in Merged(lists) + insights && f.DedupeKey() == s.DedupeKey() :: InBounds(f)
    requires adj == LearnedFrom(log, scope, minSamples) && Concludes(Merged(lists) + insights, adj, eligible, o)
    ensures (o.event == RequestChanges && o.check == Failure && !o.autoApproved)
            || MixedHides(Merged(lists) + insights, s.DedupeKey(), adj)
  {
    MergedHolds(lists, i, s);
    Feedback.LearnedDamps(Feedback.StatsOf(log, scope), minSamples);
    SecretBlocks(Merged(lists) + insights, s, adj);
  }

  /**
   From the parsed diff to the verdict: if the agent goes through, a secret on some added line makes the
   review request changes, whatever the rules, the model, the other agents and feedback say, unless a mixed
   finding hides it.
   */
  lemma SecretInDiffRequestsChanges(x: SecurityInput, s: Finding, lists: seq<seq<Finding>>, n: nat,
                                    insights: seq<Finding>, adj: Adjustments, log: seq<Feedback.Entry>,
                                    scope: Feedback.Scope, minSamples: int, eligible: bool, o: Outcome)
    requires SaneRules(x.rules) && x.GoesThrough() && s in x.Secrets()
    requires n < |lists| && lists[n] == x.Contribution()
    requires forall f | f in Merged(lists) + insights && f.DedupeKey() == s.DedupeKey() :: InBounds(f)
    requires adj == LearnedFrom(log, scope, minSamples) && Concludes(Merged(lists) + insights, adj, eligible, o)
    ensures (o.event == RequestChanges && o.check == Failure && !o.autoApproved)
            || MixedHides(Merged(lists) + insights, s.DedupeKey(), adj)
  {
    SecretsReportedIff(x);
    var i, k := HitFound(x.files, SecretScan(x.typesIn), s);
    SecretsFacts(x.files[i].path, x.files[i].added[k].newLine, x.typesIn(x.files[i].added[k].text));
    SecretIsNeverApproved(lists, insights, n, s, adj, log, scope, minSamples, eligible, o);
  }

  /** Every line with a secret yields one of the agent's secrets. */
  lemma SecretOnLine(x: SecurityInput, i: nat, k: nat)
    requires i < |x.files| && k < |x.files[i].added| && x.typesIn(x.files[i].added[k].text) != []
    ensures SecretFinding(x.files[i].path, x.files[i].added[k].newLine, x.typesIn(x.files[i].added[k].text)[0])
            in x.Secrets()
  {
    var types := x.typesIn(x.files[i].added[k].text);
    SecretsAt(x.files[i].path, x.files[i].added[k].newLine, types, 0);
    HitReported(x.files, SecretScan(x.typesIn), i, k,
      SecretFinding(x.files[i].path, x.files[i].added[k].newLine, types[0]));
  }

  /** f is the finding about the n-th secret on the k-th added line of file i. */
  ghost predicate NamesSecret(x: SecurityInput, f: Finding, i: nat, k: nat, n: nat) {
    && i < |x.files| && k < |x.files[i].added| && n < |x.typesIn(x.files[i].added[k].text)|
    && f.agent == "security" && f.dimension == Security && f.category == "hardcoded-secret"
    && f.severity == Critical && f.confidence == 0.97 && f.source == Deterministic
    && f.title == "Hardcoded secret detected (" + x.typesIn(x.files[i].added[k].text)[n] + ")"
    && f.filePath == Some(x.files[i].path) && f.line == Some(x.files[i].added[k].newLine)
  }

  lemma {:induction false} SecretsFound(path: string, line: nat, types: seq<string>, f: Finding) returns (n: nat)
    requires f in SecretsOfTypes(path, line, types)
    ensures n < |types| && f == SecretFinding(path, line, types[n])
  {
    n := |types| - 1;
    if f != SecretFinding(path, line, types[n]) { n := SecretsFound(path, line, types[..n], f); }
  }

  /** The agent's secrets are the findings about the secrets on the added lines, and no others. */
  lemma SecretsAreThose(x: SecurityInput, f: Finding)
    ensures f in x.Secrets() <==> exists i: nat, k: nat, n: nat :: NamesSecret(x, f, i, k, n)
  {
    if f in x.Secrets() {
      var i, k := HitFound(x.files, SecretScan(x.typesIn), f);
      var n := SecretsFound(x.files[i].path, x.files[i].added[k].newLine, x.typesIn(x.files[i].added[k].text), f);
      assert NamesSecret(x, f, i, k, n);
    }
    if i: nat, k: nat, n: nat :| NamesSecret(x, f, i, k, n) {
      SecretsAt(x.files[i].path, x.files[i].added[k].newLine, x.typesIn(x.files[i].added[k].text), n);
      HitReported(x.files, SecretScan(x.typesIn), i, k, f);
    }
  }

  /**
   f is the finding of the n-th rule about the k-th added line of file i: the rule covers its language and
   matches.
   */
  ghost predicate NamesMatch(x: SecurityInput, f: Finding, i: nat, k: nat, n: nat) {
    && i < |x.files| && k < |x.files[i].added| && n < |x.rules|
    && (x.rules[n].languages == {} || x.languageOf(x.files[i].path) in x.rules[n].languages)
    && x.rules[n].matches(x.files[i].added[k].text)
    && f.agent == "security" && f.dimension == Security && f.category == x.rules[n].category
    && f.severity == x.rules[n].severity && f.confidence == x.rules[n].confidence && f.source == Deterministic
    && f.title == x.rules[n].title
    && f.filePath == Some(x.files[i].path) && f.line == Some(x.files[i].added[k].newLine)
  }

  lemma {:induction false} RuleFound(rules: seq<Rule>, agent: string, dimension: Dimension, language: string,
                                     path: string, line: AddedLine, f: Finding) returns (n: nat)
    requires f in RulesOnLine(rules, agent, dimension, language, path, line)
    ensures n < |rules| && rules[n].Applies(language, line.text)
    ensures f == RuleFinding(rules[n], agent, dimension, path, line)
  {
    n := |rules| - 1;
    if !rules[n].Applies(language, line.text) || f != RuleFinding(rules[n], agent, dimension, path, line) {
      n := RuleFound(rules[..n], agent, dimension, language, path, line, f);
    }
  }

  /** The agent's rule findings are the findings of the rules about the lines they match, and no others. */
  lemma RuleFindingsAreThose(x: SecurityInput, f: Finding)
    ensures f in x.RuleFindings() <==> exists i: nat, k: nat, n: nat :: NamesMatch(x, f, i, k, n)
  {
    var scan := RuleScan(x.rules, "security", Security, x.languageOf);
    if f in x.RuleFindings() {
      var i, k := HitFound(x.files, scan, f);
      var n := RuleFound(x.rules, "security", Security, x.languageOf(x.files[i].path), x.files[i].path,
                         x.files[i].added[k], f);
      assert NamesMatch(x, f, i, k, n);
    }
    if i: nat, k: nat, n: nat :| NamesMatch(x, f, i, k, n) {
      RuleMember(x.rules, "security", Security, x.languageOf(x.files[i].path), x.files[i].path, x.files[i].added[k], n);
      HitReported(x.files, scan, i, k, f);
    }
  }

  /** f says what the i-th entry of the model's answer claims, and the entry counts: among the first fifty, in range. */
  ghost predicate NamesClaim(x: SecurityInput, f: Finding, i: nat) {
    && x.answer.Items? && i < |x.answer.items| && i < 50 && x.answer.items[i].Some?
    && var lf := x.answer.items[i].value;
       && 0.0 <= lf.confidence <= 1.0 && lf.line != Some(0)
       && (lf.filePath.None? || |lf.filePath.value| <= 1024)
       && Reports(f, lf, "security", Security, set n | 0 <= n < |x.files| :: x.files[n].path)
  }

  lemma ClaimsAreThose(x: SecurityInput, f: Finding, claims: seq<Finding>)
    requires x.Claims() == Some(claims)
    ensures f in claims <==> exists i: nat :: NamesClaim(x, f, i)
  {
    if f in claims {
      var j :| 0 <= j < |claims| && claims[j] == f;
      var i := OnlyGoodClaimsReported(x.answer.items, "security", Security, x.Paths(), claims, j);
      assert NamesClaim(x, f, i);
    }
    if i: nat :| NamesClaim(x, f, i) {
      GoodClaimReported(x.answer.items, i, x.answer.items[i].value, "security", Security, x.Paths(), claims);
      assert claims[GoodAmong(x.answer.items, i)] == f;
    }
  }

  /**
   What the agent contributes, finding by finding: if it goes through, rule matches, secrets and claims;
   else nothing.
   */
  lemma AgentReports(x: SecurityInput, f: Finding)
    requires SaneRules(x.rules)
    ensures f in x.Contribution() <==>
            && x.GoesThrough()
            && (|| (exists i: nat, k: nat, n: nat :: NamesMatch(x, f, i, k, n))
                || (exists i: nat, k: nat, n: nat :: NamesSecret(x, f, i, k, n))
                || (exists i: nat :: NamesClaim(x, f, i)))
  {
    AgentSucceedsIff(x);
    if x.GoesThrough() {
      RuleFindingsAreThose(x, f);
      SecretsAreThose(x, f);
      ClaimsAreThose(x, f, x.Claims().value);
    }
  }

  // ---- when the agent does not go through ----

  /** One line with a secret or a rule match out of range, and the agent reports nothing. */
  lemma BadPositionDropsAgent(x: SecurityInput, i: nat, k: nat)
    requires SaneRules(x.rules) && x.Notable(i, k) && !InRange(x.files[i].path, x.files[i].added[k])
    ensures x.Contribution() == []
  {
    AgentSucceedsIff(x);
  }

  lemma OneMoreAdded(st: ParseState, f: FileRecord, text: string, after: seq<AddedLine>)
    requires st.files == [f] && st.open && after == f.added + [AddedLine(st.lineno, text)]
    ensures Step(st, Plus(text)).files == [f.(added := after)] && Step(st, Plus(text)).open
  {
    assert st.files[..0] == [];
  }

  /** An added line before any hunk header is numbered 0. */
  lemma LineBeforeHeader(path: string, early: string, late: string)
    requires path != "/dev/null"
    ensures Run(START, [NewPath(path), Plus(early), HunkAt(1), Plus(late)]).files ==
            [FileRecord(path, false, [AddedLine(0, early), AddedLine(1, late)], 0)]
  {
    var ready := Step(START, NewPath(path));
    var mid := Step(ready, Plus(early));
    OneMoreAdded(ready, FileRecord(path, false, [], 0), early, [AddedLine(0, early)]);
    OneMoreAdded(Step(mid, HunkAt(1)), FileRecord(path, false, [AddedLine(0, early)], 0), late,
                 [AddedLine(0, early), AddedLine(1, late)]);
    RunFour(NewPath(path), Plus(early), HunkAt(1), Plus(late));
  }

  lemma NextFileStep(st: ParseState, path: string, text: string)
    requires st.Valid() && path != "/dev/null"
    ensures Run(st, [NewPath(path), Plus(text)]).files ==
            st.files + [FileRecord(path, st.pendingNew, [AddedLine(st.lineno, text)], 0)]
  {
    RunPair(st, NewPath(path), Plus(text));
    var ready := Step(st, NewPath(path));
    var f, added := FileRecord(path, st.pendingNew, [], 0), [AddedLine(st.lineno, text)];
    assert ready.files[..|st.files|] == st.files && ready.Last() == f;
    assert [] + added == added;
    assert Step(ready, Plus(text)).files == st.files + [f.(added := added)];
  }

  /** Without a hunk header of its own, a file's added lines go on counting where the file before it ended. */
  lemma HeaderlessFileContinues(path: string, start: nat, text: string, next: string, late: string)
    requires path != "/dev/null" && next != "/dev/null"
    ensures Run(START, [NewPath(path), HunkAt(start), Plus(text), GitHeader] + [NewPath(next), Plus(late)]).files ==
            [FileRecord(path, false, [AddedLine(start, text)], 0),
             FileRecord(next, false, [AddedLine(start + 1, late)], 0)]
  {
    var first := [NewPath(path), HunkAt(start), Plus(text), GitHeader];
    RunFour(NewPath(path), HunkAt(start), Plus(text), GitHeader);
    var ready := Step(Step(START, NewPath(path)), HunkAt(start));
    OneMoreAdded(ready, FileRecord(path, false, [], 0), text, [AddedLine(start, text)]);
    RunConcat(START, first, [NewPath(next), Plus(late)]);
    NextFileStep(Run(START, first), next, late);
  }

  lemma RunFour(a: Line, b: Line, c: Line, d: Line)
    ensures Run(START, [a, b, c, d]) == Step(Step(Step(Step(START, a), b), c), d)
  {
    RunPair(START, a, b);
    RunPair(Run(START, [a, b]), c, d);
    RunConcat(START, [a, b], [c, d]);
    assert [a, b] + [c, d] == [a, b, c, d];
  }

  /**
   A rule match on a line numbered 0 drops the secret on the next line with it; and when nobody else has
   anything to report, an eligible pull request is approved.
   */
  lemma RuleMatchHidesSecret(x: SecurityInput, path: string, early: string, late: string, n: nat,
                             lists: seq<seq<Finding>>, adj: Adjustments, eligible: bool, o: Outcome)
    requires SaneRules(x.rules) && path != "/dev/null"
    requires x.files == Run(START, [NewPath(path), Plus(early), HunkAt(1), Plus(late)]).files
    requires n < |x.rules| && x.rules[n].Applies(x.languageOf(path), early) && x.typesIn(late) != []
    requires lists == [x.Contribution()] && Concludes(Merged(lists) + [], adj, eligible, o)
    ensures x.Secrets() != [] && x.Contribution() == [] && (eligible ==> o.event == Approve && o.check == Success)
    ensures x.typesIn(early) == [] && |path| <= 1024 ==> AllValid(x.Secrets())
  {
    LineBeforeHeader(path, early, late);
    SecretOnLine(x, 0, 1);
    assert x.Notable(0, 0);
    SecretsReportedIff(x);
    NothingReported(lists, adj);
    if x.typesIn(early) == [] && |path| <= 1024 {
      SecretsAloneGoThrough(x, path, early, late);
    }
  }

  lemma SecretsAloneGoThrough(x: SecurityInput, path: string, early: string, late: string)
    requires x.files == [FileRecord(path, false, [AddedLine(0, early), AddedLine(1, late)], 0)]
    requires x.typesIn(early) == [] && |path| <= 1024
    ensures AllValid(x.Secrets())
  {
    var scan := SecretScan(x.typesIn);
    forall i, k | Hit(x.files, scan, i, k) ensures InRange(x.files[i].path, x.files[i].added[k]) {
      assert scan(path, AddedLine(0, early)) == [];
    }
    SecretScanPositioned(x.typesIn);
    ScanSucceedsIff(x.files, scan);
  }

  lemma NothingReported(lists: seq<seq<Finding>>, adj: Adjustments)
    requires lists == [[]]
    ensures Merged(lists) + [] == [] && ConsensusOf([], adj) == ConsensusResult([], false)
  {
    assert lists[..0] == [] && Merged(lists[..0]) == [];
  }

  const FOUND := SecretFinding("p", 1, "jwt")
  const MIXED := FOUND.(confidence := 1.0, source := Hybrid)

  /** The margin is tight: a certain finding of mixed source would stand for the secret and let it pass. */
  lemma HybridWouldHideSecret()
    ensures IsSecretFinding(FOUND) && Damping(map["hardcoded-secret" := Feedback.FLOOR], Feedback.FLOOR)
    ensures !ConsensusOf([FOUND, MIXED], map["hardcoded-secret" := Feedback.FLOOR]).blocking
  {
    var adj := map["hardcoded-secret" := Feedback.FLOOR];
    var fs := [FOUND, MIXED];
    assert fs[..1] == [FOUND];
    assert Rep(fs) == MIXED;
    assert Agents(fs) == {"security"} by { assert fs[0].agent == "security" && fs[1].agent == "security"; }
    assert SOURCE_MULTIPLIER[1..][0] == (Hybrid, 0.95);
    assert Base(MIXED) == 1.0 * 1.30 * 0.95;
    assert Weigh(MIXED, 1, adj) < HIGH_IMPACT_THRESHOLD;
    OnlyGroup(fs, FOUND.DedupeKey(), ByFeedback(adj));
  }
}
