/** The form schemas of src/lib/validation.ts. A zod object schema runs every
    check of every field and collects one issue per failed check, fields in
    declaration order and checks in chain order; a string field declared with
    `.trim()` is trimmed before its checks and its trimmed value is what a
    successful parse returns. Lengths are JavaScript `.length`, in UTF-16 code
    units. */
module Validation {
  import opened Common

  /** A failed check: the field it belongs to and its message. The enum check
      carries zod's own message, which this model does not spell out. */
  datatype Message = Text(text: string) | InvalidEnumValue
  datatype Issue = Issue(path: string, message: Message)

  datatype Parsed<T> = Success(data: T) | Failure(issues: seq<Issue>)

  const UsernameMin := "Username must be at least 3 characters"
  const UsernameMax := "Username must be less than 30 characters"
  const UsernameChars := "Username can only contain letters, numbers, and underscores"
  const PasswordMin := "Password must be at least 6 characters"
  const PasswordMax := "Password must be less than 100 characters"
  const EmailFormat := "Please enter a valid email address"
  const EmailMax := "Email must be less than 255 characters"
  const CodeEmpty := "Code cannot be empty"
  const CodeTooLong := "Code is too long"

  function When(failed: bool, path: string, message: string): (r: seq<Issue>)
    ensures r == [] <==> !failed
  {
    if failed then [Issue(path, Text(message))] else []
  }

  /** `/^[a-zA-Z0-9_]+$/`. */
  predicate WordOnly(s: string) {
    |s| > 0 && forall i :: 0 <= i < |s| ==> IsWordChar(s[i])
  }

  /** The username chain: trim, then `min(3)`, `max(30)` and the pattern. */
  function UsernameIssues(raw: string): seq<Issue> {
    var u := Trim(raw);
    When(Utf16Length(u) < 3, "username", UsernameMin)
      + When(Utf16Length(u) > 30, "username", UsernameMax)
      + When(!WordOnly(u), "username", UsernameChars)
  }

  /** The password chain: `min(6)` and `max(100)` on the untrimmed value. */
  function PasswordIssues(p: string): seq<Issue> {
    When(Utf16Length(p) < 6, "password", PasswordMin)
      + When(Utf16Length(p) > 100, "password", PasswordMax)
  }

  /** The email chain: trim, then `.email()` and `max(255)`. `isEmail` stands
      for zod's address pattern, which is not part of this model. */
  function EmailIssues(raw: string, isEmail: string -> bool): seq<Issue> {
    var e := Trim(raw);
    When(!isEmail(e), "email", EmailFormat) + When(Utf16Length(e) > 255, "email", EmailMax)
  }

  datatype LoginInput = LoginInput(username: string, password: string)
  datatype SignupInput = SignupInput(username: string, email: string, password: string)
  datatype CodeInput = CodeInput(code: string, language: string)

  /** `loginSchema.safeParse`. */
  function ParseLogin(username: string, password: string): (r: Parsed<LoginInput>)
    ensures r.Success? <==> UsernameIssues(username) == [] && PasswordIssues(password) == []
    ensures r.Success? ==> r.data == LoginInput(Trim(username), password)
    ensures r.Failure? ==> r.issues == UsernameIssues(username) + PasswordIssues(password) && r.issues != []
  {
    var issues := UsernameIssues(username) + PasswordIssues(password);
    if issues == [] then Success(LoginInput(Trim(username), password)) else Failure(issues)
  }

  /** `signupSchema.safeParse`. */
  function ParseSignup(username: string, email: string, password: string, isEmail: string -> bool)
    : (r: Parsed<SignupInput>)
    ensures r.Success? <==> UsernameIssues(username) == [] && EmailIssues(email, isEmail) == []
                            && PasswordIssues(password) == []
    ensures r.Success? ==> r.data == SignupInput(Trim(username), Trim(email), password)
    ensures r.Failure? ==> r.issues != []
  {
    var issues := UsernameIssues(username) + EmailIssues(email, isEmail) + PasswordIssues(password);
    if issues == [] then Success(SignupInput(Trim(username), Trim(email), password)) else Failure(issues)
  }

  const Languages := ["python", "javascript", "typescript"]

  /** `codeSchema.safeParse`. */
  function ParseCode(code: string, language: string): (r: Parsed<CodeInput>)
    ensures r.Success? ==> r.data == CodeInput(code, language)
  {
    var issues := When(Utf16Length(code) < 1, "code", CodeEmpty)
      + When(Utf16Length(code) > 50000, "code", CodeTooLong)
      + (if language in Languages then [] else [Issue("language", InvalidEnumValue)]);
    if issues == [] then Success(CodeInput(code, language)) else Failure(issues)
  }

  /** Word characters are one UTF-16 unit each. */
  lemma {:induction false} WordOnlyLength(s: string)
    requires forall i :: 0 <= i < |s| ==> IsWordChar(s[i])
    ensures Utf16Length(s) == |s|
    decreases |s|
  {
    if s != [] {
      assert forall i :: 0 <= i < |s| - 1 ==> s[1..][i] == s[i + 1];
      WordOnlyLength(s[1..]);
    }
  }

  /** A username is accepted exactly when its trimmed form has 3 to 30
      characters, all letters, digits or underscores; 30 itself is allowed
      although the message says "less than 30". */
  lemma UsernameAcceptedIff(raw: string)
    ensures UsernameIssues(raw) == [] <==>
              3 <= |Trim(raw)| <= 30 && forall i :: 0 <= i < |Trim(raw)| ==> IsWordChar(Trim(raw)[i])
  {
    var u := Trim(raw);
    assert UsernameIssues(raw) == [] <==> 3 <= Utf16Length(u) <= 30 && WordOnly(u);
    if forall i :: 0 <= i < |u| ==> IsWordChar(u[i]) {
      WordOnlyLength(u);
    }
  }

  /** A password is accepted exactly when it has 6 to 100 UTF-16 units, of
      any kind, surrounding spaces included. */
  lemma PasswordAcceptedIff(p: string)
    ensures PasswordIssues(p) == [] <==> 6 <= Utf16Length(p) <= 100
  {
  }

  /** Whitespace around a username never changes its verdict or its value. */
  lemma UsernamePadding(w1: string, s: string, w2: string)
    requires AllWhitespace(w1) && AllWhitespace(w2)
    ensures UsernameIssues(w1 + s + w2) == UsernameIssues(s)
    ensures Trim(w1 + s + w2) == Trim(s)
  {
    TrimIgnoresPadding(w1, s, w2);
  }

  /** An empty username fails both the minimum and the pattern. */
  lemma EmptyUsernameTwoIssues()
    ensures UsernameIssues("") == [Issue("username", Text(UsernameMin)), Issue("username", Text(UsernameChars))]
  {
    assert Trim("") == "";
  }

  /** Login and signup apply the same username and password rules: a signup
      that parses gives a login that parses, with the same values. */
  lemma SignupImpliesLogin(username: string, email: string, password: string, isEmail: string -> bool)
    requires ParseSignup(username, email, password, isEmail).Success?
    ensures ParseLogin(username, password).Success?
    ensures ParseLogin(username, password).data.username == ParseSignup(username, email, password, isEmail).data.username
    ensures ParseLogin(username, password).data.password == ParseSignup(username, email, password, isEmail).data.password
  {
  }

  /** A login that parses only fails as a signup through the email field. */
  lemma LoginFailsSignupOnlyByEmail(username: string, email: string, password: string, isEmail: string -> bool)
    requires ParseLogin(username, password).Success?
    ensures ParseSignup(username, email, password, isEmail).Success? <==> EmailIssues(email, isEmail) == []
    ensures ParseSignup(username, email, password, isEmail).Failure? ==>
              forall i :: 0 <= i < |ParseSignup(username, email, password, isEmail).issues| ==>
                ParseSignup(username, email, password, isEmail).issues[i].path == "email"
  {
    var r := ParseSignup(username, email, password, isEmail);
    if r.Failure? {
      assert r.issues == UsernameIssues(username) + EmailIssues(email, isEmail) + PasswordIssues(password);
    }
  }

  /** Code is accepted exactly when it has 1 to 50000 UTF-16 units and the
      language is one of the three names, spelled exactly. */
  lemma CodeAcceptedIff(code: string, language: string)
    ensures ParseCode(code, language).Success? <==>
              1 <= Utf16Length(code) <= 50000 && (language == "python" || language == "javascript" || language == "typescript")
  {
  }

  /** An email of 255 units after trimming passes the length check; 256
      fails it. */
  lemma EmailLengthBound(raw: string, isEmail: string -> bool)
    requires isEmail(Trim(raw))
    ensures EmailIssues(raw, isEmail) == [] <==> Utf16Length(Trim(raw)) <= 255
  {
  }
}
