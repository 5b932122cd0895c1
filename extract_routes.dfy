/** `POST /api/extract`: the fields read from an uploaded policy document.
    The text recognised in the file and the language model's answer are inputs;
    the model covers what the route does with them: unwrapping a fenced answer,
    parsing it, and filling each field the answer left empty from a regular
    expression run over the recognised text. */
module ExtractRoutes {
  import opened Wrappers
  import opened Text
  import opened Http

  /** The parsed answer: field name to string value. */
  type Fields = map<string, string>

  const FENCE := "```"
  const JSON_FENCE := "```json"

  const NO_FILE := "No file uploaded"

  // ---------------------------------------------------------------- fences

  /** `s.replace(/```json|```/g, "")`: left to right, "```json" tried before "```". */
  function RemoveFences(s: string): string
    decreases |s|
  {
    if s == [] then []
    else if StartsWith(s, JSON_FENCE) then RemoveFences(s[|JSON_FENCE|..])
    else if StartsWith(s, FENCE) then RemoveFences(s[|FENCE|..])
    else [s[0]] + RemoveFences(s[1..])
  }

  /** The answer is trimmed; a fenced answer loses every fence and is trimmed again. */
  function StripFences(content: string): string {
    var c := Trim(content);
    if StartsWith(c, FENCE) then Trim(RemoveFences(c)) else c
  }

  predicate NoBacktick(s: string) {
    forall i :: 0 <= i < |s| ==> s[i] != '`'
  }

  /** Text without back-ticks passes the fence removal unchanged. */
  lemma {:induction false} RemoveFencesKeepsPlain(s: string)
    requires NoBacktick(s)
    ensures RemoveFences(s) == s
    decreases |s|
  {
    if s != [] {
      assert !StartsWith(s, JSON_FENCE) && !StartsWith(s, FENCE) by {
        assert s[0] != '`';
      }
      RemoveFencesKeepsPlain(s[1..]);
      assert s == [s[0]] + s[1..];
    }
  }

  /** A trimmed JSON body in a "```json" fence comes out as the body itself. */
  lemma FencedAnswerUnwrapped(body: string)
    requires body != [] && IsTrimmed(body) && NoBacktick(body)
    ensures StripFences(JsonFenced(body)) == body
  {
    var inner := "\n" + body + "\n";
    var fenced := JsonFenced(body);
    LeadingJsonFence(inner + FENCE);
    NoBacktickWrapped(body);
    RemovePlainThenFence(inner);
    assert RemoveFences(fenced) == inner;
    TrimLineBreaks(body);
    assert fenced[..|FENCE|] == JSON_FENCE[..|FENCE|];
    UntrimmedFence(fenced);
    StripFencedParts(fenced, inner, body);
  }

  lemma StripFencedParts(fenced: string, inner: string, body: string)
    requires Trim(fenced) == fenced && StartsWith(fenced, FENCE)
    requires RemoveFences(fenced) == inner && Trim(inner) == body
    ensures StripFences(fenced) == body
  {
  }

  /** "```json", a line break, the body, a line break, "```". */
  function JsonFenced(body: string): (r: string)
    ensures r == JSON_FENCE + ("\n" + body + "\n" + FENCE)
    ensures r[0] == '`' && r[|r| - 1] == '`'
  {
    JSON_FENCE + ("\n" + body + "\n" + FENCE)
  }

  lemma LeadingJsonFence(rest: string)
    ensures RemoveFences(JSON_FENCE + rest) == RemoveFences(rest)
  {
    var s := JSON_FENCE + rest;
    assert s[..|JSON_FENCE|] == JSON_FENCE;
    assert s[|JSON_FENCE|..] == rest;
  }

  lemma NoBacktickWrapped(body: string)
    requires NoBacktick(body)
    ensures NoBacktick("\n" + body + "\n")
  {
  }

  /** A string that starts and ends with a back-tick has nothing to trim. */
  lemma UntrimmedFence(s: string)
    requires StartsWith(s, FENCE) && s[|s| - 1] == '`'
    ensures Trim(s) == s
  {
    assert s[0] == FENCE[0];
    assert TrimStart(s) == s;
  }

  /** Trimming a trimmed, non-empty body wrapped in line breaks gives the body. */
  lemma TrimLineBreaks(body: string)
    requires body != [] && IsTrimmed(body)
    ensures Trim("\n" + body + "\n") == body
  {
    var inner := "\n" + body + "\n";
    assert inner[1..] == body + "\n";
    assert TrimStart(inner) == TrimStart(body + "\n");
    assert TrimStart(body + "\n") == body + "\n" by {
      assert (body + "\n")[0] == body[0];
    }
    assert (body + "\n")[..|body|] == body;
    assert TrimEnd(body + "\n") == TrimEnd(body);
  }

  lemma {:induction false} RemovePlainThenFence(s: string)
    requires NoBacktick(s)
    ensures RemoveFences(s + FENCE) == s
    decreases |s|
  {
    if s == [] {
      assert RemoveFences(FENCE) == RemoveFences(FENCE[|FENCE|..]);
    } else {
      var t := s + FENCE;
      assert t[0] == s[0] && s[0] != '`';
      assert !StartsWith(t, JSON_FENCE) && !StartsWith(t, FENCE);
      assert t[1..] == s[1..] + FENCE;
      RemovePlainThenFence(s[1..]);
      assert s == [s[0]] + s[1..];
    }
  }

  // ------------------------------------------------------ regular expressions

  /** A label of a pattern occurs at `i`, ignoring ASCII case (the `i` flag;
      `label` is written in lower case). */
  predicate LabelAt(s: string, i: nat, word: string) {
    i + |word| <= |s| && ToLower(s[i..i + |word|]) == word
  }

  /** `\s*` from `j`: the index of the first character that is not white space. */
  function SkipSpaces(s: string, j: nat): (k: nat)
    requires j <= |s|
    ensures j <= k <= |s|
    ensures forall m :: j <= m < k ==> IsSpace(s[m])
    ensures k == |s| || !IsSpace(s[k])
    decreases |s| - j
  {
    if j < |s| && IsSpace(s[j]) then SkipSpaces(s, j + 1) else j
  }

  /** Greedy run from `j` of the characters `inClass` accepts. */
  function Run(s: string, j: nat, inClass: char -> bool): (r: string)
    requires j <= |s|
    ensures j + |r| <= |s| && r == s[j..j + |r|]
    ensures forall m :: 0 <= m < |r| ==> inClass(r[m])
    ensures j + |r| == |s| || !inClass(s[j + |r|])
    decreases |s| - j
  {
    if j < |s| && inClass(s[j]) then [s[j]] + Run(s, j + 1, inClass) else []
  }

  /** `[A-Za-z0-9\-]`. */
  predicate IsTokenChar(c: char) {
    'A' <= c <= 'Z' || 'a' <= c <= 'z' || '0' <= c <= '9' || c == '-'
  }

  /** `[\d,]`. */
  predicate IsAmountChar(c: char) {
    IsDigit(c) || c == ','
  }

  /** `\s*(class+)` at `j`: white space is never in either class, so the
      greedy `\s*` never has to give characters back. */
  function ClassAfterSpaces(s: string, j: nat, inClass: char -> bool): Option<string>
    requires j <= |s|
  {
    var run := Run(s, SkipSpaces(s, j), inClass);
    if run == [] then None else Some(run)
  }

  /** `[:\-]?\s*([A-Za-z0-9\-]+)` at `j`. When a consumed '-' leaves no token
      after it, the engine backtracks and the '-' starts the token. */
  function TokenAfterLabel(s: string, j: nat): Option<string>
    requires j <= |s|
  {
    var withSep := if j < |s| && (s[j] == ':' || s[j] == '-') then ClassAfterSpaces(s, j + 1, IsTokenChar) else None;
    if withSep.Some? then withSep else ClassAfterSpaces(s, j, IsTokenChar)
  }

  /** `[:\-]?\s*([\d,]+)` at `j`: neither separator is an amount character, so
      giving the separator back never helps. */
  function AmountAfterLabel(s: string, j: nat): Option<string>
    requires j <= |s|
  {
    var k := if j < |s| && (s[j] == ':' || s[j] == '-') then j + 1 else j;
    ClassAfterSpaces(s, k, IsAmountChar)
  }

  const POLICY_LABELS: seq<string> := ["no", "number", "id"]

  /** The first of `labels`, in order, that occurs at `q` and is followed by a token. */
  function PolicyLabelFrom(s: string, q: nat, labels: seq<string>): Option<string>
    requires q <= |s|
    decreases |labels|
  {
    if labels == [] then None
    else
      var r := if LabelAt(s, q, labels[0]) then TokenAfterLabel(s, q + |labels[0]|) else None;
      if r.Some? then r else PolicyLabelFrom(s, q, labels[1..])
  }

  /** `/Policy\s*(No|Number|ID)[:\-]?\s*([A-Za-z0-9\-]+)/i` tried at `i`;
      the result is group 2. Giving back white space after "Policy" would put a
      label on white space, so the greedy `\s*` is final here too. */
  function PolicyNumberAt(s: string, i: nat): Option<string> {
    if LabelAt(s, i, "policy") then PolicyLabelFrom(s, SkipSpaces(s, i + 6), POLICY_LABELS) else None
  }

  /** Group 1 of `(?:l1|l2|...)[:\-]?\s*([\d,]+)` tried at `i`, labels in order. */
  function AmountAt(s: string, i: nat, labels: seq<string>): Option<string>
    decreases |labels|
  {
    if labels == [] || i > |s| then None
    else
      var r := if LabelAt(s, i, labels[0]) then AmountAfterLabel(s, i + |labels[0]|) else None;
      if r.Some? then r else AmountAt(s, i, labels[1..])
  }

  /** `s.match(re)` without the `g` flag: the match at the leftmost index where one exists. */
  function Leftmost(s: string, i: nat, at: nat -> Option<string>): Option<string>
    requires i <= |s|
    decreases |s| - i
  {
    if at(i).Some? then at(i) else if i == |s| then None else Leftmost(s, i + 1, at)
  }

  function PolicyNumberFallback(text: string): Option<string> {
    Leftmost(text, 0, (i: nat) => PolicyNumberAt(text, i))
  }

  const PREMIUM_LABELS: seq<string> := ["premium", "amount"]
  const SUM_INSURED_LABELS: seq<string> := ["sum insured", "coverage amount"]
  const DEDUCTIBLE_LABELS: seq<string> := ["deductible", "co-pay"]

  /** The first labelled amount with its thousands separators removed. */
  function AmountFallback(text: string, labels: seq<string>): Option<string> {
    match Leftmost(text, 0, (i: nat) => AmountAt(text, i, labels))
    case None => None
    case Some(a) => Some(RemoveCommas(a))
  }

  predicate IsDateSep(c: char) { c == '/' || c == '-' }

  /** `\d{2}[\/\-]\d{2}[\/\-]\d{4}` at `i`. */
  predicate DateAt(s: string, i: nat) {
    i + 10 <= |s|
    && IsDigit(s[i]) && IsDigit(s[i + 1]) && IsDateSep(s[i + 2])
    && IsDigit(s[i + 3]) && IsDigit(s[i + 4]) && IsDateSep(s[i + 5])
    && IsDigit(s[i + 6]) && IsDigit(s[i + 7]) && IsDigit(s[i + 8]) && IsDigit(s[i + 9])
  }

  /** `s.match(/…/g)` for the date pattern: every match from `i`, left to right,
      each search resuming after the previous match. */
  function DatesFrom(s: string, i: nat): seq<string>
    requires i <= |s|
    decreases |s| - i
  {
    if i + 10 > |s| then []
    else if DateAt(s, i) then [s[i..i + 10]] + DatesFrom(s, i + 10)
    else DatesFrom(s, i + 1)
  }

  // ------------------------------------------------------ what the scanners find

  /** What the policy-number fallback returns is a non-empty run of token
      characters taken from the text. */
  lemma PolicyNumberFallbackSound(text: string)
    ensures PolicyNumberFallback(text).Some? ==>
      var t := PolicyNumberFallback(text).value;
      t != [] && (forall m :: 0 <= m < |t| ==> IsTokenChar(t[m])) && exists i :: OccursAt(text, t, i)
  {
    forall j | 0 <= j <= |text| && PolicyNumberAt(text, j).Some?
      ensures FoundRun(text, PolicyNumberAt(text, j).value, IsTokenChar)
    {
      PolicyLabelFromFound(text, SkipSpaces(text, j + 6), POLICY_LABELS);
    }
    LeftmostSound(text, 0, (i: nat) => PolicyNumberAt(text, i), IsTokenChar);
  }

  /** Each labelled amount, once its commas are gone, is a string of digits. */
  lemma AmountFallbackDigits(text: string, labels: seq<string>)
    ensures AmountFallback(text, labels).Some? ==> AllDigits(AmountFallback(text, labels).value)
  {
    var found := Leftmost(text, 0, (i: nat) => AmountAt(text, i, labels));
    if found.Some? {
      forall j | 0 <= j <= |text| && AmountAt(text, j, labels).Some?
        ensures FoundRun(text, AmountAt(text, j, labels).value, IsAmountChar)
      {
        AmountAtFound(text, j, labels);
      }
      LeftmostSound(text, 0, (i: nat) => AmountAt(text, i, labels), IsAmountChar);
      CommaFreeAmount(found.value);
    }
  }

  lemma {:induction false} CommaFreeAmount(a: string)
    requires forall m :: 0 <= m < |a| ==> IsAmountChar(a[m])
    ensures AllDigits(RemoveCommas(a))
    decreases |a|
  {
    if a != [] {
      CommaFreeAmount(a[1..]);
    }
  }

  /** Whatever a scanner returns is a run of its class found in the text. */
  lemma {:induction false} LeftmostSound(s: string, i: nat, at: nat -> Option<string>, inClass: char -> bool)
    requires i <= |s|
    requires forall j :: i <= j <= |s| && at(j).Some? ==> FoundRun(s, at(j).value, inClass)
    ensures Leftmost(s, i, at).Some? ==> FoundRun(s, Leftmost(s, i, at).value, inClass)
    decreases |s| - i
  {
    if at(i).None? && i < |s| {
      LeftmostSound(s, i + 1, at, inClass);
    }
  }

  ghost predicate FoundRun(s: string, t: string, inClass: char -> bool) {
    t != [] && (forall m :: 0 <= m < |t| ==> inClass(t[m])) && exists i :: OccursAt(s, t, i)
  }

  lemma ClassAfterSpacesFound(s: string, j: nat, inClass: char -> bool)
    requires j <= |s|
    ensures ClassAfterSpaces(s, j, inClass).Some? ==> FoundRun(s, ClassAfterSpaces(s, j, inClass).value, inClass)
  {
    var k := SkipSpaces(s, j);
    var run := Run(s, k, inClass);
    assert OccursAt(s, run, k);
  }

  lemma TokenAfterLabelFound(s: string, j: nat)
    requires j <= |s|
    ensures TokenAfterLabel(s, j).Some? ==> FoundRun(s, TokenAfterLabel(s, j).value, IsTokenChar)
  {
    if j < |s| {
      ClassAfterSpacesFound(s, j + 1, IsTokenChar);
    }
    ClassAfterSpacesFound(s, j, IsTokenChar);
  }

  lemma {:induction false} PolicyLabelFromFound(s: string, q: nat, labels: seq<string>)
    requires q <= |s|
    ensures PolicyLabelFrom(s, q, labels).Some? ==> FoundRun(s, PolicyLabelFrom(s, q, labels).value, IsTokenChar)
    decreases |labels|
  {
    if labels != [] {
      if LabelAt(s, q, labels[0]) {
        TokenAfterLabelFound(s, q + |labels[0]|);
      }
      PolicyLabelFromFound(s, q, labels[1..]);
    }
  }

  lemma {:induction false} AmountAtFound(s: string, i: nat, labels: seq<string>)
    ensures AmountAt(s, i, labels).Some? ==> FoundRun(s, AmountAt(s, i, labels).value, IsAmountChar)
    decreases |labels|
  {
    if labels != [] && i <= |s| {
      if LabelAt(s, i, labels[0]) {
        var j := i + |labels[0]|;
        var k := if j < |s| && (s[j] == ':' || s[j] == '-') then j + 1 else j;
        ClassAfterSpacesFound(s, k, IsAmountChar);
      }
      AmountAtFound(s, i, labels[1..]);
    }
  }

  /** Every date the global match returns is ten characters of the form
      dd/mm/yyyy (either separator) copied from the text. */
  lemma {:induction false} DatesWellFormed(s: string, i: nat)
    requires i <= |s|
    ensures forall d :: d in DatesFrom(s, i) ==> |d| == 10 && DateAt(d, 0) && exists k :: OccursAt(s, d, k)
    decreases |s| - i
  {
    if i + 10 <= |s| {
      if DateAt(s, i) {
        DatesWellFormed(s, i + 10);
        var d := s[i..i + 10];
        assert OccursAt(s, d, i);
        assert DateAt(d, 0);
      } else {
        DatesWellFormed(s, i + 1);
      }
    }
  }

  /** A text that starts with "Policy Number: " followed by a token yields that token:
      "No" does not match inside "Number", so the second label is used. */
  lemma NumberLabelGivesToken(t: string, rest: string)
    requires t != [] && forall m :: 0 <= m < |t| ==> IsTokenChar(t[m])
    requires rest == [] || !IsTokenChar(rest[0])
    ensures PolicyNumberFallback("Policy Number: " + t + rest) == Some(t)
  {
    var s := "Policy Number: " + t + rest;
    assert s[..15] == "Policy Number: ";
    assert s[15..15 + |t|] == t;
    assert 15 + |t| == |s| || s[15 + |t|] == rest[0];
    NumberLabelToken(s, t);
  }

  lemma NumberLabelToken(s: string, t: string)
    requires |s| > 15 && s[..15] == "Policy Number: "
    requires t != [] && forall m :: 0 <= m < |t| ==> IsTokenChar(t[m])
    requires 15 + |t| <= |s| && s[15..15 + |t|] == t
    requires 15 + |t| == |s| || !IsTokenChar(s[15 + |t|])
    ensures PolicyNumberFallback(s) == Some(t)
  {
    assert s[15] == t[0];
    NumberHeaderPolicy(s);
    NumberHeaderLabels(s);
    NumberHeaderSeparator(s);
    RunExact(s, 15, t, IsTokenChar);
    SeparatedToken(s, 13, 15, t);
    SkipLabel(s, 7, POLICY_LABELS);
    FirstLabelWins(s, 7, POLICY_LABELS[1..], t);
    HeaderThenLabel(s, 7, t);
    FallbackAtStart(s);
  }

  // The lemmas from here to `SeparatedToken` each take one step of the scanner over a known
  // header. Each is small enough to prove on its own; asserted together in one proof over
  // the concrete header they exhaust the solver, so they are kept apart.

  lemma NumberHeaderPolicy(s: string)
    requires |s| > 15 && s[..15] == "Policy Number: "
    ensures LabelAt(s, 0, "policy") && SkipSpaces(s, 6) == 7
  {
    NumberHeaderSpace(s);
    assert s[0..6] == "Policy";
  }

  lemma NumberHeaderSpace(s: string)
    requires |s| > 15 && s[..15] == "Policy Number: "
    ensures SkipSpaces(s, 6) == 7
  {
    assert s[6] == ' ' && s[7] == 'N';
    assert SkipSpaces(s, 7) == 7;
  }

  lemma NumberHeaderLabels(s: string)
    requires |s| > 15 && s[..15] == "Policy Number: "
    ensures !LabelAt(s, 7, "no") && LabelAt(s, 7, "number")
  {
    assert s[8] == 'u';
    assert ToLower(s[7..9])[1] == 'u';
    assert s[7..13] == "Number";
  }

  lemma NumberHeaderSeparator(s: string)
    requires |s| > 15 && s[..15] == "Policy Number: " && !IsSpace(s[15])
    ensures s[13] == ':' && SkipSpaces(s, 14) == 15
  {
    assert s[13] == "Policy Number: "[13];
    assert s[14] == ' ';
    assert SkipSpaces(s, 15) == 15;
  }

  /** The steps of a match at the start of the text. */
  lemma FallbackAtStart(s: string)
    requires PolicyNumberAt(s, 0).Some?
    ensures PolicyNumberFallback(s) == PolicyNumberAt(s, 0)
  {
  }

  lemma HeaderThenLabel(s: string, q: nat, t: string)
    requires LabelAt(s, 0, "policy") && SkipSpaces(s, 6) == q && PolicyLabelFrom(s, q, POLICY_LABELS) == Some(t)
    ensures PolicyNumberAt(s, 0) == Some(t)
  {
  }

  lemma FirstLabelWins(s: string, q: nat, labels: seq<string>, t: string)
    requires labels != [] && q <= |s| && LabelAt(s, q, labels[0])
    requires q + |labels[0]| <= |s| && TokenAfterLabel(s, q + |labels[0]|) == Some(t)
    ensures PolicyLabelFrom(s, q, labels) == Some(t)
  {
  }

  lemma SkipLabel(s: string, q: nat, labels: seq<string>)
    requires labels != [] && q <= |s| && !LabelAt(s, q, labels[0])
    ensures PolicyLabelFrom(s, q, labels) == PolicyLabelFrom(s, q, labels[1..])
  {
  }

  lemma BareToken(s: string, j: nat, t: string)
    requires j < |s| && s[j] != ':' && s[j] != '-' && SkipSpaces(s, j) == j
    requires t != [] && Run(s, j, IsTokenChar) == t
    ensures TokenAfterLabel(s, j) == Some(t)
  {
  }

  lemma SeparatedToken(s: string, j: nat, k: nat, t: string)
    requires j < |s| && s[j] == ':' && SkipSpaces(s, j + 1) == k
    requires t != [] && Run(s, k, IsTokenChar) == t
    ensures TokenAfterLabel(s, j) == Some(t)
  {
  }

  /** A run of class characters that the text ends or breaks right after is
      exactly what `Run` returns. */
  lemma {:induction false} RunExact(s: string, j: nat, t: string, inClass: char -> bool)
    requires j + |t| <= |s| && s[j..j + |t|] == t
    requires forall m :: 0 <= m < |t| ==> inClass(t[m])
    requires j + |t| == |s| || !inClass(s[j + |t|])
    ensures Run(s, j, inClass) == t
    decreases |t|
  {
    if t != [] {
      assert s[j + 1..j + 1 + |t[1..]|] == t[1..];
      RunExact(s, j + 1, t[1..], inClass);
      assert t == [t[0]] + t[1..];
    }
  }

  /** A label that only starts a word still counts: "Policy Nominee: Asha"
      yields "minee", because "No" matches the start of "Nominee". */
  lemma LabelPrefixCaptured()
    ensures PolicyNumberFallback("Policy Nominee: Asha") == Some("minee")
  {
    var s := "Policy Nominee: Asha";
    NomineeHeader(s);
    NomineeToken(s);
    BareToken(s, 9, "minee");
    FirstLabelWins(s, 7, POLICY_LABELS, "minee");
    HeaderThenLabel(s, 7, "minee");
    FallbackAtStart(s);
  }

  lemma NomineeHeader(s: string)
    requires s == "Policy Nominee: Asha"
    ensures LabelAt(s, 0, "policy") && SkipSpaces(s, 6) == 7 && LabelAt(s, 7, "no")
  {
    assert s[0..6] == "Policy";
    assert SkipSpaces(s, 7) == 7;
    assert s[7..9] == "No";
  }

  lemma NomineeToken(s: string)
    requires s == "Policy Nominee: Asha"
    ensures s[9] == 'm' && SkipSpaces(s, 9) == 9 && Run(s, 9, IsTokenChar) == "minee"
  {
    RunExact(s, 9, "minee", IsTokenChar);
  }

  // ------------------------------------------------------ filling the fields

  /** `!extracted.field`: absent or the empty string. */
  predicate Filled(f: Fields, key: string) {
    key in f && f[key] != ""
  }

  /** `if (!f[key] && found) f[key] = found`. */
  function FillIfMissing(f: Fields, key: string, found: Option<string>): Fields {
    if Filled(f, key) || found.None? then f else f[key := found.value]
  }

  /** Both dates are taken from the first two dates in the text, and only when
      there are at least two of them; a date already given is kept. */
  function FillDates(f: Fields, dates: seq<string>): Fields {
    if (Filled(f, "startDate") && Filled(f, "endDate")) || |dates| < 2 then f
    else
      f["startDate" := if Filled(f, "startDate") then f["startDate"] else dates[0]]
       ["endDate" := if Filled(f, "endDate") then f["endDate"] else dates[1]]
  }

  const FALLBACK_KEYS: set<string> :=
    {"policyNumber", "startDate", "endDate", "premiumAmount", "sumInsured", "deductible"}

  /** What the fallback expressions find in the text. */
  datatype Found = Found(policyNumber: Option<string>, dates: seq<string>, premium: Option<string>,
                         sumInsured: Option<string>, deductible: Option<string>)

  function FoundIn(text: string): Found {
    Found(PolicyNumberFallback(text), DatesFrom(text, 0), AmountFallback(text, PREMIUM_LABELS),
          AmountFallback(text, SUM_INSURED_LABELS), AmountFallback(text, DEDUCTIBLE_LABELS))
  }

  /** The fill steps, in the route's order, given what was found. */
  function FillAll(base: Fields, found: Found): Fields {
    var f := FillIfMissing(base, "policyNumber", found.policyNumber);
    FillAmounts(FillDates(f, found.dates), found)
  }

  const AMOUNT_KEYS: set<string> := {"premiumAmount", "sumInsured", "deductible"}

  /** The three amount steps. */
  function FillAmounts(f: Fields, found: Found): Fields {
    var f := FillIfMissing(f, "premiumAmount", found.premium);
    var f := FillIfMissing(f, "sumInsured", found.sumInsured);
    FillIfMissing(f, "deductible", found.deductible)
  }

  /** The fields after every fallback. */
  function WithFallbacks(base: Fields, text: string): Fields {
    FillAll(base, FoundIn(text))
  }

  /** `g` extends `f`: a filled field keeps its value, nothing outside `keys`
      changes, and no key is dropped. */
  ghost predicate Grows(f: Fields, g: Fields, keys: set<string>) {
    && (forall k :: Filled(f, k) ==> k in g && g[k] == f[k])
    && (forall k :: k !in keys ==> (k in g <==> k in f) && (k in g ==> g[k] == f[k]))
    && f.Keys <= g.Keys
  }

  lemma FillIfMissingGrows(f: Fields, key: string, found: Option<string>, keys: set<string>)
    requires key in keys
    ensures Grows(f, FillIfMissing(f, key, found), keys)
  {
  }

  lemma FillDatesGrows(f: Fields, dates: seq<string>, keys: set<string>)
    requires "startDate" in keys && "endDate" in keys
    ensures Grows(f, FillDates(f, dates), keys)
  {
  }

  lemma GrowsTrans(f: Fields, g: Fields, h: Fields, keys: set<string>)
    requires Grows(f, g, keys) && Grows(g, h, keys)
    ensures Grows(f, h, keys)
  {
  }

  /** The fallbacks never overwrite a field the answer filled, never touch a key
      outside the six they know, and fill a missing key only when their own
      expression matched. */
  lemma FallbacksOnlyFillGaps(base: Fields, text: string)
    ensures var r := WithFallbacks(base, text);
      && (forall k :: Filled(base, k) ==> k in r && r[k] == base[k])
      && (forall k :: k !in FALLBACK_KEYS ==> (k in r <==> k in base) && (k in r ==> r[k] == base[k]))
      && base.Keys <= r.Keys
  {
    FillAllGrows(base, FoundIn(text));
  }

  lemma FillAllGrows(base: Fields, found: Found)
    ensures Grows(base, FillAll(base, found), FALLBACK_KEYS)
  {
    var f1 := FillIfMissing(base, "policyNumber", found.policyNumber);
    FillIfMissingGrows(base, "policyNumber", found.policyNumber, FALLBACK_KEYS);
    var f2 := FillDates(f1, found.dates);
    FillDatesGrows(f1, found.dates, FALLBACK_KEYS);
    GrowsTrans(base, f1, f2, FALLBACK_KEYS);
    FillAmountsGrows(f2, found, FALLBACK_KEYS);
    GrowsTrans(base, f2, FillAmounts(f2, found), FALLBACK_KEYS);
  }

  lemma FillAmountsGrows(f: Fields, found: Found, keys: set<string>)
    requires AMOUNT_KEYS <= keys
    ensures Grows(f, FillAmounts(f, found), keys)
  {
    var f1 := FillIfMissing(f, "premiumAmount", found.premium);
    FillIfMissingGrows(f, "premiumAmount", found.premium, keys);
    var f2 := FillIfMissing(f1, "sumInsured", found.sumInsured);
    FillIfMissingGrows(f1, "sumInsured", found.sumInsured, keys);
    GrowsTrans(f, f1, f2, keys);
    FillIfMissingGrows(f2, "deductible", found.deductible, keys);
    GrowsTrans(f, f2, FillAmounts(f, found), keys);
  }

  /** A field a fill step fills was missing and gets what the step found. */
  lemma FillIfMissingValue(f: Fields, key: string, found: Option<string>)
    ensures var g := FillIfMissing(f, key, found);
      !Filled(f, key) && Filled(g, key) ==> found.Some? && g[key] == found.value
  {
  }

  /** An amount the amount steps fill comes from its own expression. */
  lemma FillAmountsValues(f: Fields, found: Found)
    ensures var r := FillAmounts(f, found);
      && (!Filled(f, "premiumAmount") && Filled(r, "premiumAmount") ==> found.premium == Some(r["premiumAmount"]))
      && (!Filled(f, "sumInsured") && Filled(r, "sumInsured") ==> found.sumInsured == Some(r["sumInsured"]))
      && (!Filled(f, "deductible") && Filled(r, "deductible") ==> found.deductible == Some(r["deductible"]))
  {
    var f1 := FillIfMissing(f, "premiumAmount", found.premium);
    FillIfMissingValue(f, "premiumAmount", found.premium);
    var f2 := FillIfMissing(f1, "sumInsured", found.sumInsured);
    FillIfMissingGrows(f1, "sumInsured", found.sumInsured, {"sumInsured"});
    FillIfMissingValue(f1, "sumInsured", found.sumInsured);
    var r := FillIfMissing(f2, "deductible", found.deductible);
    FillIfMissingGrows(f2, "deductible", found.deductible, {"deductible"});
    FillIfMissingValue(f2, "deductible", found.deductible);
    GrowsTrans(f1, f2, r, {"sumInsured", "deductible"});
  }

  /** A field the chain fills comes from its own expression. */
  lemma FillAllValues(base: Fields, found: Found)
    ensures var r := FillAll(base, found);
      && (!Filled(base, "policyNumber") && Filled(r, "policyNumber") ==> found.policyNumber == Some(r["policyNumber"]))
      && (!Filled(base, "premiumAmount") && Filled(r, "premiumAmount") ==> found.premium == Some(r["premiumAmount"]))
      && (!Filled(base, "sumInsured") && Filled(r, "sumInsured") ==> found.sumInsured == Some(r["sumInsured"]))
      && (!Filled(base, "deductible") && Filled(r, "deductible") ==> found.deductible == Some(r["deductible"]))
  {
    var f1 := FillIfMissing(base, "policyNumber", found.policyNumber);
    FillIfMissingGrows(base, "policyNumber", found.policyNumber, {"policyNumber"});
    FillIfMissingValue(base, "policyNumber", found.policyNumber);
    var f2 := FillDates(f1, found.dates);
    FillDatesGrows(f1, found.dates, {"startDate", "endDate"});
    GrowsTrans(base, f1, f2, {"policyNumber", "startDate", "endDate"});
    FillAmountsGrows(f2, found, AMOUNT_KEYS);
    FillAmountsValues(f2, found);
  }

  /** The amounts the fallbacks fill are plain digit strings, and the policy
      number is the token the policy-number expression found. */
  lemma FallbackValuesShape(base: Fields, text: string)
    ensures var r := WithFallbacks(base, text);
      && (forall k :: k in {"premiumAmount", "sumInsured", "deductible"} && !Filled(base, k) && Filled(r, k) ==> AllDigits(r[k]))
      && (!Filled(base, "policyNumber") && Filled(r, "policyNumber") ==> Some(r["policyNumber"]) == PolicyNumberFallback(text))
  {
    AmountFallbackDigits(text, PREMIUM_LABELS);
    AmountFallbackDigits(text, SUM_INSURED_LABELS);
    AmountFallbackDigits(text, DEDUCTIBLE_LABELS);
    FillAllValues(base, FoundIn(text));
  }

  /** The dates of the chain: with fewer than two found neither changes,
      otherwise a missing start date becomes the first and a missing end date
      the second. */
  lemma FillAllDates(base: Fields, found: Found)
    ensures var r := FillAll(base, found);
      && (|found.dates| < 2 ==> (forall k :: k in {"startDate", "endDate"} ==> (k in r <==> k in base) && (k in r ==> r[k] == base[k])))
      && (|found.dates| >= 2 && !Filled(base, "startDate") ==> "startDate" in r && r["startDate"] == found.dates[0])
      && (|found.dates| >= 2 && !Filled(base, "endDate") ==> "endDate" in r && r["endDate"] == found.dates[1])
  {
    var f1 := FillIfMissing(base, "policyNumber", found.policyNumber);
    FillIfMissingGrows(base, "policyNumber", found.policyNumber, {"policyNumber"});
    var f2 := FillDates(f1, found.dates);
    FillAmountsGrows(f2, found, AMOUNT_KEYS);
  }

  /** The dates: with fewer than two dates in the text neither date is filled;
      otherwise a missing start date becomes the first and a missing end date the
      second. */
  lemma DateFallbackRule(base: Fields, text: string)
    ensures var r := WithFallbacks(base, text);
      var dates := DatesFrom(text, 0);
      && (|dates| < 2 ==> (forall k :: k in {"startDate", "endDate"} ==> (k in r <==> k in base) && (k in r ==> r[k] == base[k])))
      && (|dates| >= 2 && !Filled(base, "startDate") ==> "startDate" in r && r["startDate"] == dates[0])
      && (|dates| >= 2 && !Filled(base, "endDate") ==> "endDate" in r && r["endDate"] == dates[1])
  {
    FillAllDates(base, FoundIn(text));
  }

  /** The parsed answer, or no fields when it is not valid JSON. */
  function ParsedOrEmpty(parsed: Option<Fields>): Fields {
    parsed.GetOr(map[])
  }

  /** The route: 400 without a file; otherwise the parsed answer completed by the
      fallbacks, field by field as the handler assigns them. `parse` stands for
      `JSON.parse`, `None` for the exception it throws. */
  method Extract(hasFile: bool, answer: string, text: string, parse: string -> Option<Fields>)
    returns (reply: Reply<Fields>)
    ensures !hasFile ==> reply == Err(400, NO_FILE)
    ensures hasFile ==> reply == Ok(200, WithFallbacks(ParsedOrEmpty(parse(StripFences(answer))), text))
  {
    if !hasFile {
      return Err(400, NO_FILE);
    }
    var content := StripAnswer(answer);
    var extracted: Fields := map[];
    var parsed := parse(content);
    if parsed.Some? {
      extracted := parsed.value;
    }
    extracted := FillPolicyNumber(extracted, text);
    extracted := FillDateFields(extracted, text);
    extracted := FillAmount(extracted, "premiumAmount", text, PREMIUM_LABELS);
    extracted := FillAmount(extracted, "sumInsured", text, SUM_INSURED_LABELS);
    extracted := FillAmount(extracted, "deductible", text, DEDUCTIBLE_LABELS);
    return Ok(200, extracted);
  }

  /** Lines 75-78: trim the answer and strip its code fences. */
  method StripAnswer(answer: string) returns (content: string)
    ensures content == StripFences(answer)
  {
    content := Trim(answer);
    if StartsWith(content, FENCE) {
      content := Trim(RemoveFences(content));
    }
  }

  /** Lines 88-91: the policy-number fallback. */
  method FillPolicyNumber(f: Fields, text: string) returns (g: Fields)
    ensures g == FillIfMissing(f, "policyNumber", PolicyNumberFallback(text))
  {
    g := f;
    if !Filled(f, "policyNumber") {
      var found := PolicyNumberFallback(text);
      if found.Some? {
        g := f["policyNumber" := found.value];
      }
    }
  }

  /** Lines 93-99: the date fallback. */
  method FillDateFields(f: Fields, text: string) returns (g: Fields)
    ensures g == FillDates(f, DatesFrom(text, 0))
  {
    g := f;
    if !Filled(f, "startDate") || !Filled(f, "endDate") {
      var dates := DatesFrom(text, 0);
      if |dates| >= 2 {
        g := g["startDate" := if Filled(f, "startDate") then f["startDate"] else dates[0]];
        g := g["endDate" := if Filled(f, "endDate") then f["endDate"] else dates[1]];
      }
    }
  }

  /** One of the three amount blocks of the handler. */
  method FillAmount(f: Fields, key: string, text: string, labels: seq<string>) returns (g: Fields)
    ensures g == FillIfMissing(f, key, AmountFallback(text, labels))
  {
    g := f;
    if !Filled(f, key) {
      var found := AmountFallback(text, labels);
      if found.Some? {
        g := f[key := found.value];
      }
    }
  }
}
