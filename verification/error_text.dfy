/** `formatErrorMessage`: the rewriting of a server error message into the
    text shown to the user. Rules are tried in a fixed order; the first
    three look only at the message, the rest also at the HTTP status. */
module ErrorText {
  import opened Wrappers
  import opened Text

  const SessionExpiredText := "Your session has expired. Please login again."
  const InsufficientFundsText := "You don't have enough funds in your account for this transaction. Please check your balance and try again."
  const MissingAccountText := "The account you're trying to use doesn't exist. Please refresh the page and try again."
  const ForbiddenText := "You don't have permission to perform this action."
  const NotFoundText := "The resource you're looking for doesn't exist."
  const ServerErrorText := "Something went wrong on our end. Please try again in a moment. If the problem persists, contact support."
  const CheckInputText := "Please check your input"

  /** Which rule rewrites a message. */
  datatype Rule =
    | InsufficientFunds
    | Validation
    | AccountNotFound
    | Unauthorized
    | Forbidden
    | NotFound
    | ServerError
    | Unchanged

  predicate MentionsInsufficientFunds(m: string) {
    Contains(m, "Insufficient funds")
  }

  predicate MentionsValidation(m: string) {
    Contains(m, "validation") || Contains(m, "Validation")
  }

  predicate MentionsMissingAccount(m: string) {
    Contains(m, "Account not found") || (Contains(m, "account") && Contains(m, "not found"))
  }

  /** One of the three rules that look only at the message applies. */
  predicate MessageRuleApplies(m: string) {
    MentionsInsufficientFunds(m) || MentionsValidation(m) || MentionsMissingAccount(m)
  }

  /** The first rule, in the source's order, that applies. */
  function Classify(m: string, status: int): Rule {
    if MentionsInsufficientFunds(m) then InsufficientFunds
    else if MentionsValidation(m) then Validation
    else if MentionsMissingAccount(m) then AccountNotFound
    else if status == 401 || Contains(m, "Unauthorized") || Contains(m, "expired") then Unauthorized
    else if status == 403 || Contains(m, "Forbidden") then Forbidden
    else if status == 404 then NotFound
    else if status >= 500 then ServerError
    else Unchanged
  }

  /** `pat` occurs at index `i` of `s` when ASCII case is ignored, the way
      a regular expression with the `i` flag matches a pattern of ASCII
      letters. */
  predicate MatchesAt(s: string, pat: string, i: nat) {
    i + |pat| <= |s| && ToLower(s[i..i + |pat|]) == ToLower(pat)
  }

  /** The index of the leftmost case-insensitive occurrence of `pat` in `s`
      at or after `from`. */
  function FindFrom(s: string, pat: string, from: nat): (r: Option<nat>)
    ensures r.Some? ==> from <= r.value && MatchesAt(s, pat, r.value)
    ensures r.Some? ==> forall j: nat :: from <= j < r.value ==> !MatchesAt(s, pat, j)
    ensures r.None? ==> forall j: nat :: from <= j ==> !MatchesAt(s, pat, j)
    decreases |s| - from
  {
    if from + |pat| > |s| then None
    else if MatchesAt(s, pat, from) then Some(from)
    else FindFrom(s, pat, from + 1)
  }

  /** `s.replace(/pat/i, rep)`: the leftmost case-insensitive occurrence
      of `pat` is replaced by `rep`; without one, `s` is returned. */
  function ReplaceFirst(s: string, pat: string, rep: string): string {
    match FindFrom(s, pat, 0)
    case None => s
    case Some(i) => s[..i] + rep + s[i + |pat|..]
  }

  /** The validation rule's rewrite: two successive case-insensitive
      replacements of "validation". */
  function ValidationRewrite(m: string): string {
    ReplaceFirst(ReplaceFirst(m, "validation", CheckInputText), "Validation", CheckInputText)
  }

  /** `formatErrorMessage(message, statusCode)`. */
  function FormatErrorMessage(m: string, status: int): string {
    match Classify(m, status)
    case InsufficientFunds => InsufficientFundsText
    case Validation => ValidationRewrite(m)
    case AccountNotFound => MissingAccountText
    case Unauthorized => SessionExpiredText
    case Forbidden => ForbiddenText
    case NotFound => NotFoundText
    case ServerError => ServerErrorText
    case Unchanged => m
  }

  /** The message-based rules take precedence: when one applies, the status
      code does not matter. */
  lemma MessageRulesIgnoreStatus(m: string, s1: int, s2: int)
    requires MessageRuleApplies(m)
    ensures FormatErrorMessage(m, s1) == FormatErrorMessage(m, s2)
  {
  }

  /** Without a message-based rule and without the words the later rules
      look for, the status decides: 401 is a session expiry, 403 a
      permission error, 404 a missing resource, 500 and above a server
      error, and any other status leaves the message as it is. */
  lemma StatusRules(m: string, status: int)
    requires !MessageRuleApplies(m)
    requires !Contains(m, "Unauthorized") && !Contains(m, "expired") && !Contains(m, "Forbidden")
    ensures status == 401 ==> FormatErrorMessage(m, status) == SessionExpiredText
    ensures status == 403 ==> FormatErrorMessage(m, status) == ForbiddenText
    ensures status == 404 ==> FormatErrorMessage(m, status) == NotFoundText
    ensures status >= 500 ==> FormatErrorMessage(m, status) == ServerErrorText
    ensures status != 401 && status != 403 && status != 404 && status < 500 ==>
      FormatErrorMessage(m, status) == m
  {
  }

  /** A 401 gives the session-expired text unless a message-based rule
      applies first. */
  lemma UnauthorizedIsSessionExpired(m: string)
    requires !MessageRuleApplies(m)
    ensures FormatErrorMessage(m, 401) == SessionExpiredText
  {
  }

  /** Replacing at a found occurrence leaves the text before it alone and
      puts `rep` in its place. */
  lemma ReplaceFirstFound(s: string, pat: string, rep: string, i: nat)
    requires FindFrom(s, pat, 0) == Some(i)
    ensures ReplaceFirst(s, pat, rep)[..i] == s[..i]
    ensures OccursAt(ReplaceFirst(s, pat, rep), rep, i)
  {
    var r := ReplaceFirst(s, pat, rep);
    assert r == s[..i] + rep + s[i + |pat|..];
    assert r[i..i + |rep|] == rep;
  }

  /** Both spellings lower-case to "validation", which has no 'p'. */
  lemma LowerValidation()
    ensures ToLower("Validation") == "validation" && ToLower("validation") == "validation"
    ensures forall k :: 0 <= k < 10 ==> "validation"[k] != 'p'
  {
    assert ToLower("Validation")[0] == 'v';
  }

  /** After the first replacement, no case-insensitive "validation" starts
      before the replaced place: the text before it had none, and none can
      run into "Please check your input", whose first letter is a 'p'. */
  lemma NoMatchBefore(m: string, i: nat, j: nat)
    requires FindFrom(m, "validation", 0) == Some(i)
    requires j < i
    ensures !MatchesAt(ReplaceFirst(m, "validation", CheckInputText), "Validation", j)
  {
    var once := ReplaceFirst(m, "validation", CheckInputText);
    LowerValidation();
    assert once == m[..i] + CheckInputText + m[i + 10..];
    if j + 10 <= |once| {
      var window := once[j..j + 10];
      if j + 10 <= i {
        assert window == m[j..j + 10];
        assert !MatchesAt(m, "validation", j);
      } else {
        assert window[i - j] == once[i] == 'P';
        assert ToLower(window)[i - j] == 'p';
      }
    }
  }

  /** Both spellings the rule tests for are found by the case-insensitive
      search. */
  lemma ValidationFound(m: string)
    requires MentionsValidation(m)
    ensures FindFrom(m, "validation", 0).Some?
  {
    var k: nat :| k <= |m| && (OccursAt(m, "validation", k) || OccursAt(m, "Validation", k));
    assert ToLower("Validation") == ToLower("validation") by {
      assert ToLower("Validation")[0] == 'v';
    }
    if OccursAt(m, "validation", k) {
      assert m[k..k + 10] == "validation";
    } else {
      assert OccursAt(m, "Validation", k);
      assert |"Validation"| == 10;
      assert m[k..k + 10] == "Validation";
    }
    assert MatchesAt(m, "validation", k);
  }

  /** Two successive replacements by the same text, where the second
      pattern has no match before the first replaced place, keep the text
      before that place, and the replacement text is in the result. */
  lemma ReplaceTwice(m: string, p1: string, p2: string, rep: string, i: nat)
    requires FindFrom(m, p1, 0) == Some(i)
    requires forall j: nat :: j < i ==> !MatchesAt(ReplaceFirst(m, p1, rep), p2, j)
    ensures ReplaceFirst(ReplaceFirst(m, p1, rep), p2, rep)[..i] == m[..i]
    ensures Contains(ReplaceFirst(ReplaceFirst(m, p1, rep), p2, rep), rep)
  {
    var once := ReplaceFirst(m, p1, rep);
    var twice := ReplaceFirst(once, p2, rep);
    ReplaceFirstFound(m, p1, rep, i);
    match FindFrom(once, p2, 0)
    case None =>
      assert OccursAt(twice, rep, i);
    case Some(j) =>
      ReplaceFirstFound(once, p2, rep, j);
      assert twice[..i] == twice[..j][..i];
      assert once[..j][..i] == once[..i];
      assert OccursAt(twice, rep, j);
  }

  /** The validation rule always puts "Please check your input" in the
      place of the first case-insensitive "validation", keeping the text
      before it. */
  lemma ValidationRewriteReplaces(m: string)
    requires MentionsValidation(m)
    ensures FindFrom(m, "validation", 0).Some?
    ensures var i := FindFrom(m, "validation", 0).value;
      ValidationRewrite(m)[..i] == m[..i] && Contains(ValidationRewrite(m), CheckInputText)
  {
    ValidationFound(m);
    var i := FindFrom(m, "validation", 0).value;
    forall j: nat | j < i
      ensures !MatchesAt(ReplaceFirst(m, "validation", CheckInputText), "Validation", j)
    {
      NoMatchBefore(m, i, j);
    }
    ReplaceTwice(m, "validation", "Validation", CheckInputText, i);
  }
}
