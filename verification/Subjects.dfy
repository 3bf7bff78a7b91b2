/** Subject lines: utils/email_deliverability.py and `_sequence_subject`. */
module Subjects {
  import opened Common
  import opened Text

  /** What Python's text library decides: the lower-case form of each character, and whether a company
      name mentions StayEZ (the regular expression of `_clean_company_name`). */
  datatype Locale = Locale(lower: char -> string, mentionsStayEz: string -> bool)

  /** The facts about `str.lower` the model relies on: ASCII letters fold to ASCII letters, and only a
      colon folds to text with a colon in it. */
  ghost predicate Folds(locale: Locale) {
    && (forall c :: ':' in locale.lower(c) <==> c == ':')
    && locale.lower('R') == "r" && locale.lower('a') == "a"
  }

  /** The characters `str.split` and `str.strip` treat as white space. */
  predicate IsSpace(c: char) {
    var n := c as int;
    || (n <= 0x20 && IsAsciiSpace(n))
    || (n >= 0x85 && IsWideSpace(n))
  }

  predicate IsAsciiSpace(n: int) { 0x09 <= n <= 0x0d || 0x1c <= n <= 0x20 }

  predicate IsWideSpace(n: int) {
    || n == 0x85 || n == 0xa0 || n == 0x1680 || 0x2000 <= n <= 0x200a || n == 0x2028 || n == 0x2029
    || n == 0x202f || n == 0x205f || n == 0x3000
  }

  /** The first position from `i` on that is not white space. */
  function SkipSpace(s: string, i: nat): (r: nat)
    requires i <= |s|
    ensures i <= r <= |s|
    ensures r < |s| ==> !IsSpace(s[r])
    decreases |s| - i
  {
    if i < |s| && IsSpace(s[i]) then SkipSpace(s, i + 1) else i
  }

  /** The end of the text without trailing white space, if it ends before `j`. */
  function TrimEnd(s: string, j: nat): (r: nat)
    requires j <= |s|
    ensures r <= j
    ensures r > 0 ==> !IsSpace(s[r - 1])
    ensures r < j ==> IsSpace(s[r])
  {
    if j > 0 && IsSpace(s[j - 1]) then TrimEnd(s, j - 1) else j
  }

  /** Python's `s.strip()`. */
  function Strip(s: string): (r: string)
    ensures |r| <= |s|
  {
    var end := TrimEnd(s, |s|);
    s[Min(SkipSpace(s, 0), end)..end]
  }

  /** The length of the word a text starts with. */
  function WordLength(s: string): (n: nat)
    ensures n <= |s|
    ensures forall i :: 0 <= i < n ==> !IsSpace(s[i])
    ensures n < |s| ==> IsSpace(s[n])
  {
    if s == "" || IsSpace(s[0]) then 0 else 1 + WordLength(s[1..])
  }

  /** Python's `s.split()`. */
  function Words(s: string): seq<string>
    decreases |s|
  {
    if s == "" then []
    else if IsSpace(s[0]) then Words(s[1..])
    else [s[..WordLength(s)]] + Words(s[WordLength(s)..])
  }

  /** Python's `" ".join(words)`. */
  function Join(words: seq<string>): string {
    if |words| == 0 then ""
    else if |words| == 1 then words[0]
    else words[0] + " " + Join(words[1..])
  }

  function Collapse(s: string): string { Join(Words(Strip(s))) }

  function Lower(locale: Locale, s: string): string {
    if s == "" then "" else locale.lower(s[0]) + Lower(locale, s[1..])
  }

  const SPAMMY: seq<string> := [
    "partnership opportunity", "partnership opportunities", "partnership", "outreach",
    "following up", "follow up", "quick question", "fresh thought"
  ]

  const GENERIC_COMPANIES: set<string> := {"default", "default organization", "organization"}

  predicate Spammy(locale: Locale, text: string) {
    exists i :: 0 <= i < |SPAMMY| && Contains(Lower(locale, text), SPAMMY[i])
  }

  /** `_clean_company_name`. */
  function CleanCompany(locale: Locale, name: string): string {
    var company := Collapse(name);
    if company == "" || Lower(locale, company) in GENERIC_COMPANIES then ""
    else if locale.mentionsStayEz(company) then "StayEZ"
    else company
  }

  /** The subject that replaces a spammy or empty one. */
  function RequestSubject(locale: Locale, company: string): string {
    var clean := CleanCompany(locale, company);
    if clean == "" then "Rates and media request" else "Rates and media for" + " " + clean
  }

  /** `normalize_outreach_subject`. */
  function Normalize(locale: Locale, subject: string, company: string): string {
    var text := Collapse(subject);
    if text == "" || Spammy(locale, text) then RequestSubject(locale, company) else text
  }

  // ---- White space -------------------------------------------------------------------------

  /** No white space but single blanks. */
  ghost predicate SingleBlanks(s: string) {
    && (forall i :: 0 <= i < |s| && IsSpace(s[i]) ==> s[i] == ' ')
    && (forall i :: 0 <= i < |s| - 1 && IsSpace(s[i]) ==> !IsSpace(s[i + 1]))
  }

  /** Single blanks, and none at either end. */
  ghost predicate Tidy(s: string) {
    SingleBlanks(s) && (s != "" ==> !IsSpace(s[0]) && !IsSpace(s[|s| - 1]))
  }

  lemma SliceHasSingleBlanks(s: string, i: nat, j: nat)
    requires SingleBlanks(s) && i <= j <= |s|
    ensures SingleBlanks(s[i..j])
  {
    var r := s[i..j];
    forall k | 0 <= k < |r| && IsSpace(r[k])
      ensures r[k] == ' ' && (k < |r| - 1 ==> !IsSpace(r[k + 1]))
    {
      assert r[k] == s[i + k];
      if k < |r| - 1 {
        assert r[k + 1] == s[i + k + 1];
      }
    }
  }

  lemma {:induction false} WordsAreWords(s: string)
    ensures forall i :: 0 <= i < |Words(s)| ==> Words(s)[i] != "" && forall j :: 0 <= j < |Words(s)[i]| ==> !IsSpace(Words(s)[i][j])
    decreases |s|
  {
    if s != "" {
      if IsSpace(s[0]) {
        WordsAreWords(s[1..]);
      } else {
        WordsAreWords(s[WordLength(s)..]);
      }
    }
  }

  lemma {:induction false} JoinIsTidy(words: seq<string>)
    requires forall i :: 0 <= i < |words| ==> words[i] != "" && forall j :: 0 <= j < |words[i]| ==> !IsSpace(words[i][j])
    ensures Tidy(Join(words))
    ensures words != [] ==> Join(words) != ""
  {
    if |words| >= 2 {
      JoinIsTidy(words[1..]);
    }
  }

  lemma CollapseIsTidy(s: string)
    ensures Tidy(Collapse(s))
  {
    WordsAreWords(Strip(s));
    JoinIsTidy(Words(Strip(s)));
  }

  lemma CutAtBlank(s: string, n: nat)
    requires n < |s| && s[n] == ' '
    ensures s == s[..n] + " " + s[n + 1..]
  {
  }

  /** After the first word of a tidy text comes one blank and then a tidy text. */
  lemma AfterFirstWord(s: string, n: nat)
    requires Tidy(s) && n < |s| && IsSpace(s[n])
    ensures n + 1 < |s| && s[n] == ' ' && Tidy(s[n + 1..])
  {
    var rest := s[n + 1..|s|];
    SliceHasSingleBlanks(s, n + 1, |s|);
    assert !IsSpace(s[n + 1]);
    assert rest[0] == s[n + 1] && rest[|rest| - 1] == s[|s| - 1];
    assert rest == s[n + 1..];
  }

  lemma {:induction false} TidyWordsJoin(s: string)
    requires Tidy(s)
    ensures Join(Words(s)) == s
    ensures s != "" ==> Words(s) != []
    decreases |s|
  {
    if s != "" {
      var n := WordLength(s);
      if n < |s| {
        AfterFirstWord(s, n);
        CutAtBlank(s, n);
        assert s[n..][1..] == s[n + 1..];
        TidyWordsJoin(s[n + 1..]);
      } else {
        assert s[..n] == s;
      }
    }
  }

  lemma TidyIsCollapsed(s: string)
    requires Tidy(s)
    ensures Collapse(s) == s
  {
    assert Strip(s) == s by {
      assert TrimEnd(s, |s|) == |s| && SkipSpace(s, 0) == 0;
    }
    TidyWordsJoin(s);
  }

  // ---- Normalisation -----------------------------------------------------------------------

  lemma JoiningTidy(a: string, b: string)
    requires Tidy(a) && Tidy(b) && a != "" && b != ""
    ensures Tidy(a + " " + b)
  {
    var s := a + " " + b;
    assert forall i :: 0 <= i < |a| ==> s[i] == a[i];
    assert s[|a|] == ' ';
    assert forall i :: |a| < i < |s| ==> s[i] == b[i - |a| - 1];
  }

  lemma RatesForIsTidy()
    ensures Tidy("Rates and media for")
  {
  }

  lemma RatesRequestIsTidy()
    ensures Tidy("Rates and media request")
  {
  }

  lemma CleanCompanyIsTidy(locale: Locale, company: string)
    ensures Tidy(CleanCompany(locale, company))
  {
    CollapseIsTidy(company);
    assert Tidy("StayEZ");
  }

  lemma RequestSubjectIsTidy(locale: Locale, company: string)
    ensures var r := RequestSubject(locale, company);
            Tidy(r) && |r| >= 2 && r[0] == 'R' && r[1] == 'a'
  {
    CleanCompanyIsTidy(locale, company);
    var clean := CleanCompany(locale, company);
    if clean == "" {
      RatesRequestIsTidy();
    } else {
      RatesForIsTidy();
      JoiningTidy("Rates and media for", clean);
    }
  }

  lemma NormalizedIsTidy(locale: Locale, subject: string, company: string)
    ensures Tidy(Normalize(locale, subject, company)) && Normalize(locale, subject, company) != ""
  {
    CollapseIsTidy(subject);
    RequestSubjectIsTidy(locale, company);
  }

  /** Subject normalisation is a fixed point, for every subject and company. */
  lemma NormalizeTwice(locale: Locale, subject: string, company: string)
    ensures Normalize(locale, Normalize(locale, subject, company), company) == Normalize(locale, subject, company)
  {
    NormalizedIsTidy(locale, subject, company);
    TidyIsCollapsed(Normalize(locale, subject, company));
  }

  // ---- Sequence subjects -------------------------------------------------------------------

  /** The text starts with a reply or forward mark. */
  predicate Marked(locale: Locale, text: string) {
    var low := Lower(locale, text);
    "re:" <= low || "fw:" <= low || "fwd:" <= low
  }

  /** Where the first colon is. */
  function ColonAt(text: string): (k: nat)
    requires ':' in text
    ensures k < |text| && text[k] == ':'
  {
    if text[0] == ':' then 0 else 1 + ColonAt(text[1..])
  }

  /** Python's `text.split(":", 1)[1]`, for a text with a colon in it. */
  function AfterColon(text: string): string
    requires ':' in text
  {
    text[ColonAt(text) + 1..]
  }

  lemma {:induction false} ColonSurvivesLowering(locale: Locale, s: string)
    requires Folds(locale) && ':' in Lower(locale, s)
    ensures ':' in s
  {
    if s != "" && s[0] != ':' {
      ColonSurvivesLowering(locale, s[1..]);
    }
  }

  /** A mark has a colon in it, so the split that takes it off cannot fail. */
  lemma MarkHasColon(locale: Locale, text: string)
    requires Folds(locale) && Marked(locale, text)
    ensures ':' in text
  {
    var low := Lower(locale, text);
    assert low[2] == ':' || low[3] == ':';
    ColonSurvivesLowering(locale, text);
  }

  lemma SuffixIsTidy(s: string, k: nat)
    requires Tidy(s) && k <= |s|
    ensures Tidy(Strip(s[k..])) && |Strip(s[k..])| <= |s| - k
  {
    assert s[k..] == s[k..|s|];
    SliceHasSingleBlanks(s, k, |s|);
    StripIsTidy(s[k..]);
  }

  lemma StripIsTidy(s: string)
    requires SingleBlanks(s)
    ensures Tidy(Strip(s))
  {
    var end := TrimEnd(s, |s|);
    var start := Min(SkipSpace(s, 0), end);
    SliceHasSingleBlanks(s, start, end);
    var r := s[start..end];
    if start < end {
      assert r[0] == s[start] && r[|r| - 1] == s[end - 1];
    }
  }

  /** The subject after all marks are off. */
  function Unmarked(locale: Locale, text: string): (r: string)
    decreases |text|
  {
    if Marked(locale, text) && ':' in text then Unmarked(locale, Strip(AfterColon(text))) else text
  }

  lemma RatesIsUnmarked(locale: Locale, text: string)
    requires Folds(locale) && |text| >= 2 && text[0] == 'R' && text[1] == 'a'
    ensures !Marked(locale, text)
  {
    assert Lower(locale, text) == "r" + ("a" + Lower(locale, text[1..][1..]));
    assert Lower(locale, text)[1] == 'a';
  }

  /** White space inside a text does not move its first word. */
  lemma CollapseKeepsStart(s: string)
    requires |s| >= 2 && !IsSpace(s[0]) && !IsSpace(s[1])
    ensures |Collapse(s)| >= 2 && Collapse(s)[0] == s[0] && Collapse(s)[1] == s[1]
  {
    StripKeepsStart(s);
    assert WordLength(Strip(s)) >= 2;
  }

  lemma StripKeepsStart(s: string)
    requires |s| >= 2 && !IsSpace(s[0]) && !IsSpace(s[1])
    ensures |Strip(s)| >= 2 && Strip(s)[0] == s[0] && Strip(s)[1] == s[1]
  {
    TrimKeepsStart(s, |s|);
    assert SkipSpace(s, 0) == 0;
  }

  lemma {:induction false} TrimKeepsStart(s: string, j: nat)
    requires 2 <= j <= |s| && !IsSpace(s[1])
    ensures TrimEnd(s, j) >= 2
  {
    if IsSpace(s[j - 1]) {
      TrimKeepsStart(s, j - 1);
    }
  }

  /** The text the subject is normalised from: what is left of it, or the default. */
  function SubjectSource(text: string, company: string): string {
    if text == "" then Strip("Rates and media for " + company) else text
  }

  lemma DefaultSourceStart(company: string)
    ensures var start := Collapse(SubjectSource("", company));
            |start| >= 2 && start[0] == 'R' && start[1] == 'a'
  {
    var full := "Rates and media for " + company;
    assert full[0] == 'R' && full[1] == 'a';
    StripKeepsStart(full);
    CollapseKeepsStart(Strip(full));
  }

  lemma NormalizedSourceIsUnmarked(locale: Locale, text: string, company: string)
    requires Folds(locale) && Tidy(text) && !Marked(locale, text)
    ensures !Marked(locale, Normalize(locale, SubjectSource(text, company), company))
  {
    var source := SubjectSource(text, company);
    var result := Normalize(locale, source, company);
    if Collapse(source) == "" || Spammy(locale, Collapse(source)) {
      RequestSubjectIsTidy(locale, company);
      RatesIsUnmarked(locale, result);
    } else if text != "" {
      TidyIsCollapsed(text);
    } else {
      DefaultSourceStart(company);
      RatesIsUnmarked(locale, result);
    }
  }

  /** `_sequence_subject` without its loop. */
  function SequenceText(locale: Locale, subject: string, company: string): string {
    Normalize(locale, SubjectSource(Unmarked(locale, Collapse(subject)), company), company)
  }

  /** `_sequence_subject` on the rendered template, for the sender's company. The loop ends, and what it
      leaves is the text without reply and forward marks. */
  method SequenceSubject(locale: Locale, subject: string, company: string) returns (result: string)
    requires Folds(locale)
    ensures !Marked(locale, result)
    ensures result == Normalize(locale, result, company)
    ensures result == SequenceText(locale, subject, company)
  {
    var text := Collapse(subject);
    CollapseIsTidy(subject);
    while Marked(locale, text)
      invariant Tidy(text)
      invariant Unmarked(locale, text) == Unmarked(locale, Collapse(subject))
      decreases |text|
    {
      MarkHasColon(locale, text);
      SuffixIsTidy(text, ColonAt(text) + 1);
      text := Strip(AfterColon(text));
    }
    NormalizedSourceIsUnmarked(locale, text, company);
    NormalizeTwice(locale, SubjectSource(text, company), company);
    result := Normalize(locale, SubjectSource(text, company), company);
  }
}
