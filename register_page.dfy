/** The sign-up form: the password-strength meter and the per-field
    validator that keeps one error message per field name. */
module RegisterPage {
  import opened Wrappers
  import opened Seqs
  import opened Text
  import Email

  // The four strength criteria.

  predicate LongEnough(p: string) { |p| >= 8 }

  /** `/[^A-Za-z0-9]/` */
  predicate IsSpecial(c: char) { !IsAlphanumeric(c) }

  /** `/[A-Z]/.test(p)` */
  function HasUpper(p: string): bool { Any(p, IsUpper) }

  /** `/[0-9]/.test(p)` */
  function HasDigit(p: string): bool { Any(p, IsDigit) }

  /** `/[^A-Za-z0-9]/.test(p)` */
  function HasSpecial(p: string): bool { Any(p, IsSpecial) }

  function Count(b: bool): nat { if b then 1 else 0 }

  /** How many of the four criteria the password meets. */
  function Score(p: string): nat {
    Count(LongEnough(p)) + Count(HasUpper(p)) + Count(HasDigit(p)) + Count(HasSpecial(p))
  }

  datatype Rating = Unrated | Weak | Fair | Good | Strong {
    function Rank(): nat {
      match this
      case Unrated => 0
      case Weak => 1
      case Fair => 2
      case Good => 3
      case Strong => 4
    }
  }

  /** The rating the meter shows. */
  function RatingOf(p: string): Rating {
    if p == "" then Unrated
    else if Score(p) <= 1 then Weak
    else if Score(p) == 2 then Fair
    else if Score(p) == 3 then Good
    else Strong
  }

  /** The object `getPasswordStrength` returns. */
  datatype Strength = Strength(strength: string, color: string, width: string)

  function Display(r: Rating): Strength {
    match r
    case Unrated => Strength("", "", "0%")
    case Weak => Strength("Weak", "bg-red-600", "25%")
    case Fair => Strength("Fair", "bg-yellow-600", "50%")
    case Good => Strength("Good", "bg-blue-600", "75%")
    case Strong => Strength("Strong", "bg-emerald-600", "100%")
  }

  /** `getPasswordStrength`, counting the criteria one by one. */
  method GetPasswordStrength(password: string) returns (r: Strength)
    ensures r == Display(RatingOf(password))
    ensures password == "" <==> r.strength == ""
  {
    if password == "" {
      return Strength("", "", "0%");
    }
    var score := 0;
    if |password| >= 8 { score := score + 1; }
    if HasUpper(password) { score := score + 1; }
    if HasDigit(password) { score := score + 1; }
    if HasSpecial(password) { score := score + 1; }
    if score <= 1 {
      r := Strength("Weak", "bg-red-600", "25%");
    } else if score == 2 {
      r := Strength("Fair", "bg-yellow-600", "50%");
    } else if score == 3 {
      r := Strength("Good", "bg-blue-600", "75%");
    } else {
      r := Strength("Strong", "bg-emerald-600", "100%");
    }
  }

  /** The rating is "Strong" exactly when all four criteria hold. */
  lemma StrongIffAllCriteria(p: string)
    ensures RatingOf(p) == Strong <==>
              |p| >= 8
              && (exists i :: 0 <= i < |p| && IsUpper(p[i]))
              && (exists i :: 0 <= i < |p| && IsDigit(p[i]))
              && (exists i :: 0 <= i < |p| && !IsAlphanumeric(p[i]))
  {
  }

  /** `q` meets every criterion `p` meets. */
  predicate MeetsAtLeast(q: string, p: string) {
    && (LongEnough(p) ==> LongEnough(q))
    && (HasUpper(p) ==> HasUpper(q))
    && (HasDigit(p) ==> HasDigit(q))
    && (HasSpecial(p) ==> HasSpecial(q))
  }

  /** Meeting more criteria never lowers the rating. */
  lemma MoreCriteriaNeverLower(p: string, q: string)
    requires q != ""
    requires MeetsAtLeast(q, p)
    ensures RatingOf(p).Rank() <= RatingOf(q).Rank()
  {
    assert Score(p) <= Score(q);
  }

  // The field validators.

  /** The password requirements in the order they are listed. */
  const AllRequirements: seq<string> :=
    ["8 characters", "one uppercase letter", "one number", "one special character"]

  /** Whether the password meets requirement `k` of `AllRequirements`. */
  function MeetsRequirement(p: string, k: nat): bool
    requires k < 4
  {
    match k
    case 0 => LongEnough(p)
    case 1 => HasUpper(p)
    case 2 => HasDigit(p)
    case 3 => HasSpecial(p)
  }

  /** The requirements the password misses, in the fixed order. */
  function Missing(p: string): seq<string> {
    (if LongEnough(p) then [] else [AllRequirements[0]])
    + (if HasUpper(p) then [] else [AllRequirements[1]])
    + (if HasDigit(p) then [] else [AllRequirements[2]])
    + (if HasSpecial(p) then [] else [AllRequirements[3]])
  }

  /** The listed requirements are, in order, exactly the missed ones. */
  lemma MissingInOrder(p: string)
    ensures IsSubseq(Missing(p), AllRequirements)
    ensures forall k :: 0 <= k < 4 ==> (AllRequirements[k] in Missing(p) <==> !MeetsRequirement(p, k))
    ensures Missing(p) == [] <==> Score(p) == 4
  {
    var all := AllRequirements;
    assert all[3..][1..] == [];
    SubseqPrepend([], all[3..], !HasSpecial(p));
    var d := if HasSpecial(p) then [] else [all[3]];
    assert all[2..][1..] == all[3..];
    SubseqPrepend(d, all[2..], !HasDigit(p));
    var cd := (if HasDigit(p) then [] else [all[2]]) + d;
    assert all[1..][1..] == all[2..];
    SubseqPrepend(cd, all[1..], !HasUpper(p));
    var bcd := (if HasUpper(p) then [] else [all[1]]) + cd;
    SubseqPrepend(bcd, all, !LongEnough(p));
    assert Missing(p) == (if LongEnough(p) then [] else [all[0]]) + bcd;
  }

  /** The message for the full-name field, if any. */
  function FullNameError(v: string): Option<string> {
    if v == "" then Some("Full name is required")
    else if |v| < 2 then Some("Name must be at least 2 characters")
    else None
  }

  /** `/^[a-zA-Z0-9_]+$/.test(v)` */
  predicate IsIdentifier(v: string) {
    v != [] && forall i :: 0 <= i < |v| ==> IsWordChar(v[i])
  }

  function UsernameError(v: string): Option<string> {
    if v == "" then Some("Username is required")
    else if |v| < 3 then Some("Username must be at least 3 characters")
    else if !IsIdentifier(v) then Some("Username can only contain letters, numbers, and underscores")
    else None
  }

  function EmailError(v: string): Option<string> {
    if v == "" then Some("Email is required")
    else if !Email.Test(v) then Some("Please enter a valid email")
    else None
  }

  function PasswordError(v: string): Option<string> {
    if v == "" then Some("Password is required")
    else if Missing(v) != [] then Some("Password needs: " + Join(Missing(v), ", "))
    else None
  }

  function ConfirmError(v: string, password: string): Option<string> {
    if v == "" then Some("Please confirm your password")
    else if v != password then Some("Passwords do not match")
    else None
  }

  /** The fields `validateField` knows. */
  const Fields: set<string> := {"fullName", "username", "email", "password", "confirmPassword"}

  /** The message `validateField(name, value)` leaves for a known field;
      `password` is the password currently in the form. */
  function FieldError(name: string, value: string, password: string): Option<string>
    requires name in Fields
  {
    if name == "fullName" then FullNameError(value)
    else if name == "username" then UsernameError(value)
    else if name == "email" then EmailError(value)
    else if name == "password" then PasswordError(value)
    else ConfirmError(value, password)
  }

  /** A full name passes exactly when it has at least two characters. */
  lemma FullNameValid(v: string)
    ensures FullNameError(v).None? <==> |v| >= 2
  {
  }

  /** A username passes exactly when it has at least three characters, all
      letters, digits or underscores; the first failing check picks the
      message. */
  lemma UsernameValid(v: string)
    ensures UsernameError(v).None? <==> |v| >= 3 && forall i :: 0 <= i < |v| ==> IsWordChar(v[i])
    ensures v == "" ==> UsernameError(v) == Some("Username is required")
    ensures 0 < |v| < 3 ==> UsernameError(v) == Some("Username must be at least 3 characters")
  {
  }

  /** An email passes exactly when it is non-empty and contains a
      whitespace-free `x@y.z`. */
  lemma EmailValid(v: string)
    ensures EmailError(v).None? <==> v != "" && Email.Matches(v)
  {
    Email.TestSpec(v);
  }

  /** The password error clears exactly when the meter shows "Strong". */
  lemma PasswordValidIffStrong(v: string)
    ensures PasswordError(v).None? <==> RatingOf(v) == Strong
  {
    MissingInOrder(v);
  }

  /** The confirmation passes exactly when it is non-empty and equals the
      password. */
  lemma ConfirmValid(v: string, password: string)
    ensures ConfirmError(v, password).None? <==> v != "" && v == password
  {
  }

  /** `validateField(name, value)` on a copy of the error map: sets or
      deletes the entry for `name`, listing the missed password requirements
      one by one. */
  method ValidateField(errors: map<string, string>, password: string, name: string, value: string)
    returns (newErrors: map<string, string>)
    ensures name !in Fields ==> newErrors == errors
    ensures forall k :: k != name ==> (k in newErrors <==> k in errors)
    ensures forall k :: k != name && k in errors ==> newErrors[k] == errors[k]
    ensures name in Fields ==>
              && (name in newErrors <==> FieldError(name, value, password).Some?)
              && (name in newErrors ==> newErrors[name] == FieldError(name, value, password).value)
  {
    newErrors := errors;
    if name == "fullName" {
      if value == "" {
        newErrors := newErrors[name := "Full name is required"];
      } else if |value| < 2 {
        newErrors := newErrors[name := "Name must be at least 2 characters"];
      } else {
        newErrors := newErrors - {name};
      }
    } else if name == "username" {
      if value == "" {
        newErrors := newErrors[name := "Username is required"];
      } else if |value| < 3 {
        newErrors := newErrors[name := "Username must be at least 3 characters"];
      } else if !IsIdentifier(value) {
        newErrors := newErrors[name := "Username can only contain letters, numbers, and underscores"];
      } else {
        newErrors := newErrors - {name};
      }
    } else if name == "email" {
      if value == "" {
        newErrors := newErrors[name := "Email is required"];
      } else if !Email.Test(value) {
        newErrors := newErrors[name := "Please enter a valid email"];
      } else {
        newErrors := newErrors - {name};
      }
    } else if name == "password" {
      if value == "" {
        newErrors := newErrors[name := "Password is required"];
      } else {
        var requirements: seq<string> := [];
        if |value| < 8 { requirements := requirements + ["8 characters"]; }
        if !HasUpper(value) { requirements := requirements + ["one uppercase letter"]; }
        if !HasDigit(value) { requirements := requirements + ["one number"]; }
        if !HasSpecial(value) { requirements := requirements + ["one special character"]; }
        assert requirements == Missing(value);
        if |requirements| > 0 {
          newErrors := newErrors[name := "Password needs: " + Join(requirements, ", ")];
        } else {
          newErrors := newErrors - {name};
        }
      }
    } else if name == "confirmPassword" {
      if value == "" {
        newErrors := newErrors[name := "Please confirm your password"];
      } else if value != password {
        newErrors := newErrors[name := "Passwords do not match"];
      } else {
        newErrors := newErrors - {name};
      }
    }
  }
}
