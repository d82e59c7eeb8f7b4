/**
 * The login page: the four password rules checked as the user types, the
 * success message that replaces the rule list, and what a login answer leaves
 * in the browser's storage.
 *
 * Storage is a map from key to text; the request itself, the timers and the
 * page changes are outside the model.
 */
module LoginPage {
  import opened Wrappers
  import opened Text

  // ---------------------------------------------------------------------------
  // Password rules
  // ---------------------------------------------------------------------------

  /**
   * `s.length`: the number of UTF-16 code units, where a character outside
   * the Basic Multilingual Plane takes two (a surrogate pair).
   */
  function Utf16Length(s: string): (n: nat)
    ensures |s| <= n <= 2 * |s|
    ensures (forall k :: 0 <= k < |s| ==> s[k] as int < 0x10000) ==> n == |s|
  {
    if s == [] then 0
    else
      assert forall k :: 0 < k < |s| ==> s[1..][k - 1] == s[k];
      (if s[0] as int < 0x10000 then 1 else 2) + Utf16Length(s[1..])
  }

  /** The length of joined text is the sum of the lengths. */
  lemma {:induction false} Utf16LengthAppend(a: string, b: string)
    ensures Utf16Length(a + b) == Utf16Length(a) + Utf16Length(b)
    decreases |a|
  {
    if a != [] {
      assert (a + b)[1..] == a[1..] + b;
      Utf16LengthAppend(a[1..], b);
    } else {
      assert a + b == b;
    }
  }

  /** The characters the "special" rule accepts. */
  const SpecialChars: string := "!@#$%^&*(),.?\":{}|<>"

  /** The rules, in the order the page lists and checks them. */
  datatype Criterion = Length | Upper | Number | Special

  const Criteria: seq<Criterion> := [Length, Upper, Number, Special]

  predicate IsUpper(c: char) { 'A' <= c <= 'Z' }

  predicate IsDigit(c: char) { '0' <= c <= '9' }

  predicate IsSpecial(c: char) { c in SpecialChars }

  /** Some character of `s` satisfies `p` (a one-character regular-expression class). */
  predicate Has(s: string, p: char -> bool) {
    exists i :: 0 <= i < |s| && p(s[i])
  }

  /** What rule `c` demands of the password `s`. */
  predicate Holds(c: Criterion, s: string) {
    match c
    case Length => Utf16Length(s) >= 8
    case Upper => Has(s, IsUpper)
    case Number => Has(s, IsDigit)
    case Special => Has(s, IsSpecial)
  }

  /** A character-class test, read left to right as the regular expression scans. */
  method Scan(s: string, p: char -> bool) returns (found: bool)
    ensures found <==> Has(s, p)
  {
    var i := 0;
    while i < |s|
      invariant 0 <= i <= |s|
      invariant forall j :: 0 <= j < i ==> !p(s[j])
    {
      if p(s[i]) {
        return true;
      }
      i := i + 1;
    }
    found := false;
  }

  method Check(c: Criterion, s: string) returns (ok: bool)
    ensures ok == Holds(c, s)
  {
    match c
    case Length => ok := Utf16Length(s) >= 8;
    case Upper => ok := Scan(s, IsUpper);
    case Number => ok := Scan(s, IsDigit);
    case Special => ok := Scan(s, IsSpecial);
  }

  /** How the page shows the rules after an input event. */
  datatype Feedback = Feedback(marks: seq<bool>, allValid: bool, showSuccess: bool)

  /**
   * The input handler: every rule is checked and marked, `allValid` is lowered
   * by any rule that fails, and the success message replaces the list only
   * when every rule holds on a non-empty password.
   */
  method OnInput(val: string) returns (f: Feedback)
    ensures |f.marks| == |Criteria|
    ensures forall k :: 0 <= k < |Criteria| ==> f.marks[k] == Holds(Criteria[k], val)
    ensures f.allValid <==> forall c: Criterion :: Holds(c, val)
    ensures f.showSuccess <==> f.allValid && |val| > 0
  {
    var allValid := true;
    var marks: seq<bool> := [];
    var k := 0;
    while k < |Criteria|
      invariant 0 <= k <= |Criteria|
      invariant |marks| == k
      invariant forall j :: 0 <= j < k ==> marks[j] == Holds(Criteria[j], val)
      invariant allValid <==> forall j :: 0 <= j < k ==> Holds(Criteria[j], val)
    {
      var isValid := Check(Criteria[k], val);
      if !isValid {
        allValid := false;
      }
      marks := marks + [isValid];
      k := k + 1;
    }
    EveryCriterionListed(val);
    f := Feedback(marks, allValid, allValid && |val| > 0);
  }

  /** The list names every rule, so "each listed rule holds" means "every rule holds". */
  lemma EveryCriterionListed(s: string)
    ensures (forall j :: 0 <= j < |Criteria| ==> Holds(Criteria[j], s)) <==> (forall c: Criterion :: Holds(c, s))
  {
    if forall j :: 0 <= j < |Criteria| ==> Holds(Criteria[j], s) {
      forall c: Criterion
        ensures Holds(c, s)
      {
        match c
        case Length => assert Criteria[0] == Length;
        case Upper => assert Criteria[1] == Upper;
        case Number => assert Criteria[2] == Number;
        case Special => assert Criteria[3] == Special;
      }
    }
  }

  /** The length rule already demands a non-empty password, so the success message shows exactly when every rule holds. */
  lemma SuccessIffAllValid(val: string)
    ensures ((forall c: Criterion :: Holds(c, val)) && |val| > 0) <==> (forall c: Criterion :: Holds(c, val))
  {
    if forall c: Criterion :: Holds(c, val) {
      assert Holds(Length, val);
    }
  }

  /**
   * The length rule counts UTF-16 code units: two letters, a digit, a sign and
   * two emoji make six characters but eight units, enough for the rule.
   */
  lemma AstralPasswordLength()
    ensures var s := "Aa1!\U{1F600}\U{1F600}"; |s| == 6 && Holds(Length, s)
  {
    var s := "Aa1!\U{1F600}\U{1F600}";
    assert s == "Aa1!" + "\U{1F600}\U{1F600}";
    Utf16LengthAppend("Aa1!", "\U{1F600}\U{1F600}");
    assert Utf16Length("\U{1F600}\U{1F600}") == 4 by {
      assert "\U{1F600}\U{1F600}"[1..] == "\U{1F600}";
      assert "\U{1F600}"[1..] == "";
    }
  }

  // ---------------------------------------------------------------------------
  // Login
  // ---------------------------------------------------------------------------

  type Storage = map<string, string>

  const TokenKey: string := "admin_token"
  const TimeKey: string := "login_time"

  /** The literal the page stores instead of the server's token. */
  const Placeholder: string := "autenticado"

  /** The server's answer: its status and the body fields the page reads. */
  datatype LoginAnswer = LoginAnswer(ok: bool, message: Option<string>, token: Option<string>)

  datatype Outcome = LoggedIn | Refused(message: string)

  /** The message shown for a refused login: the server's, or a default when it sends none (or an empty one). */
  function RefusalText(a: LoginAnswer): (m: string)
    ensures m != ""
    ensures a.message.Some? && a.message.value != "" ==> m == a.message.value
  {
    if a.message.Some? && a.message.value != "" then a.message.value else "Erro ao realizar login."
  }

  /** The submit handler as written: an accepted login stores the placeholder, whatever the server sent. */
  function LoginAsWritten(st: Storage, a: LoginAnswer): (r: (Storage, Outcome))
    ensures a.ok ==> r.1 == LoggedIn && r.0 == st[TokenKey := Placeholder]
    ensures !a.ok ==> r.1 == Refused(RefusalText(a)) && r.0 == st
  {
    if a.ok then (st[TokenKey := Placeholder], LoggedIn)
    else (st, Refused(RefusalText(a)))
  }

  /**
   * The submit handler storing what the session check expects: the server's
   * token and the time of the login (in milliseconds, as decimal text).
   */
  function Login(st: Storage, a: LoginAnswer, now: int): (r: (Storage, Outcome))
    ensures a.ok && a.token.Some? ==>
      r.1 == LoggedIn && r.0 == st[TokenKey := a.token.value][TimeKey := DecimalString(now)]
    ensures a.ok && a.token.None? ==> r.1 == LoggedIn && r.0 == st[TokenKey := Placeholder]
    ensures !a.ok ==> r.1 == Refused(RefusalText(a)) && r.0 == st
  {
    if a.ok && a.token.Some? then (st[TokenKey := a.token.value][TimeKey := DecimalString(now)], LoggedIn)
    else LoginAsWritten(st, a)
  }
}
