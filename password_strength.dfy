/** Input.tsx: the password-strength meter. The score is a sum of six
    one-point checks; the component recomputes it in an effect. The two
    length checks count UTF-16 code units, as JavaScript's `.length` does,
    so a character beyond U+FFFF counts twice. The character-class checks
    look at whole characters, which gives the same answers as testing
    code units: neither half of a surrogate pair is an ASCII letter or
    digit. */
module PasswordStrength {
  import opened Common

  /** The meter's state: score, label (`level`) and bar colour. */
  datatype Strength = Strength(score: nat, level: string, color: string)

  const NoStrength: Strength := Strength(0, "", "")

  predicate IsLower(c: char) { 'a' <= c <= 'z' }
  predicate IsUpper(c: char) { 'A' <= c <= 'Z' }
  predicate IsDigit(c: char) { '0' <= c <= '9' }
  /** `[^a-zA-Z0-9]` */
  predicate IsSpecial(c: char) { !IsLower(c) && !IsUpper(c) && !IsDigit(c) }

  predicate HasLower(s: string) { exists i :: 0 <= i < |s| && IsLower(s[i]) }
  predicate HasUpper(s: string) { exists i :: 0 <= i < |s| && IsUpper(s[i]) }
  predicate HasDigit(s: string) { exists i :: 0 <= i < |s| && IsDigit(s[i]) }
  predicate HasSpecial(s: string) { exists i :: 0 <= i < |s| && IsSpecial(s[i]) }

  function Point(b: bool): nat {
    if b then 1 else 0
  }

  /** The six checks: at least 8 characters, at least 12, a lower-case
      letter, an upper-case letter, a digit, anything else. */
  function Score(password: string): (score: nat)
    ensures score <= 6
  {
    Point(Utf16Length(password) >= 8) + Point(Utf16Length(password) >= 12)
    + Point(HasLower(password)) + Point(HasUpper(password))
    + Point(HasDigit(password)) + Point(HasSpecial(password))
  }

  /** Every character is in one of the four classes, so a non-empty
      password earns at least one point. */
  lemma NonEmptyScoresAtLeastOne(password: string)
    requires password != []
    ensures Score(password) >= 1
  {
    var c := password[0];
    if !IsLower(c) && !IsUpper(c) && !IsDigit(c) {
      assert IsSpecial(password[0]);
    }
  }

  /** Appending characters never lowers the score: every check only looks
      for something. */
  lemma ScoreMonotone(password: string, more: string)
    ensures Score(password) <= Score(password + more)
  {
    var longer := password + more;
    Utf16LengthAppend(password, more);
    forall i | 0 <= i < |password| ensures longer[i] == password[i] {
    }
  }

  /** Scores: "Password" has length 8, a lower-case and an upper-case
      letter; "Password1!" adds a digit and a special character; a
      twelve-digit string has both length points and a digit. */
  lemma ScoreExamples()
    ensures Score("Password") == 3
    ensures Score("Password1!") == 5
    ensures Score("123456789012") == 3
    ensures Score("a") == 1
  {
    WordScore();
    WordDigitSignScore();
    DigitsScore();
    LetterScore();
  }

  /** "a": one lower-case letter. */
  lemma LetterScore()
    ensures Score("a") == 1
  {
    assert IsLower("a"[0]);
  }

  /** "Password": eight code units, an upper-case and a lower-case letter. */
  lemma WordScore()
    ensures Score("Password") == 3
  {
    var pw := "Password";
    assert Utf16Length(pw) == 8 by {
      assert forall i :: 0 <= i < |pw| ==> !IsSupplementary(pw[i]);
      Utf16LengthBounds(pw);
    }
    WordClasses();
  }

  lemma WordClasses()
    ensures HasLower("Password") && HasUpper("Password")
    ensures !HasDigit("Password") && !HasSpecial("Password")
  {
    var pw := "Password";
    assert forall i :: 0 <= i < |pw| ==> !IsDigit(pw[i]) && !IsSpecial(pw[i]);
    assert IsUpper(pw[0]) && IsLower(pw[1]);
  }

  /** "Password1!": ten code units and all four classes. */
  lemma WordDigitSignScore()
    ensures Score("Password1!") == 5
  {
    var pw := "Password1!";
    assert Utf16Length(pw) == 10 by {
      assert forall i :: 0 <= i < |pw| ==> !IsSupplementary(pw[i]);
      Utf16LengthBounds(pw);
    }
    WordDigitSignClasses();
  }

  lemma WordDigitSignClasses()
    ensures HasLower("Password1!") && HasUpper("Password1!")
    ensures HasDigit("Password1!") && HasSpecial("Password1!")
  {
    var pw := "Password1!";
    assert IsUpper(pw[0]) && IsLower(pw[1]) && IsDigit(pw[8]) && IsSpecial(pw[9]);
  }

  /** Twelve digits: both length points and a digit. */
  lemma DigitsScore()
    ensures Score("123456789012") == 3
  {
    var digits := "123456789012";
    assert Utf16Length(digits) == 12 by {
      assert forall i :: 0 <= i < |digits| ==> !IsSupplementary(digits[i]);
      Utf16LengthBounds(digits);
    }
    DigitsClasses();
  }

  lemma DigitsClasses()
    ensures HasDigit("123456789012")
    ensures !HasLower("123456789012") && !HasUpper("123456789012") && !HasSpecial("123456789012")
  {
    var digits := "123456789012";
    assert forall i :: 0 <= i < |digits| ==> !IsLower(digits[i]) && !IsUpper(digits[i]) && !IsSpecial(digits[i]);
    assert IsDigit(digits[0]);
  }

  /** Four characters beyond U+FFFF are eight code units, so they earn
      the first length point (and the special-character point). */
  lemma FacesScore()
    ensures Score("\U{1F600}\U{1F600}\U{1F600}\U{1F600}") == 2
  {
    var faces := "\U{1F600}\U{1F600}\U{1F600}\U{1F600}";
    assert forall i :: 0 <= i < |faces| ==>
      IsSupplementary(faces[i]) && IsSpecial(faces[i]) && !IsLower(faces[i]) && !IsUpper(faces[i]) && !IsDigit(faces[i]);
    Utf16LengthBounds(faces);
  }

  /** `calculatePasswordStrength` */
  function StrengthOf(password: string): (st: Strength)
    ensures password == [] ==> st == NoStrength
    ensures password != [] ==> st.score == Score(password)
    ensures password != [] ==> (st.level == "Weak" <==> Score(password) <= 2)
    ensures password != [] ==> (st.level == "Medium" <==> 3 <= Score(password) <= 4)
    ensures password != [] ==> (st.level == "Strong" <==> Score(password) >= 5)
    ensures st.level == "Weak" ==> st.color == "bg-red-500"
    ensures st.level == "Medium" ==> st.color == "bg-yellow-500"
    ensures st.level == "Strong" ==> st.color == "bg-green-500"
  {
    if password == [] then NoStrength
    else
      var score := Score(password);
      if score <= 2 then Strength(score, "Weak", "bg-red-500")
      else if score <= 4 then Strength(score, "Medium", "bg-yellow-500")
      else Strength(score, "Strong", "bg-green-500")
  }

  /** The input's value, which need not be a string. */
  datatype InputValue = Text(text: string) | NotText

  /** An `Input` component's own state. */
  class PasswordInput {
    const showPasswordStrength: bool
    var passwordStrength: Strength
    var showPassword: bool

    constructor (showPasswordStrength: bool)
      ensures this.showPasswordStrength == showPasswordStrength
      ensures passwordStrength == NoStrength && !showPassword
    {
      this.showPasswordStrength := showPasswordStrength;
      passwordStrength := NoStrength;
      showPassword := false;
    }

    /** The effect on `value`: recompute only for a meter on a string
        value; otherwise keep the last result. */
    method OnValueChange(value: InputValue)
      modifies this
      ensures showPasswordStrength && value.Text? ==> passwordStrength == StrengthOf(value.text)
      ensures !(showPasswordStrength && value.Text?) ==> passwordStrength == old(passwordStrength)
      ensures showPassword == old(showPassword)
    {
      if showPasswordStrength && value.Text? {
        passwordStrength := StrengthOf(value.text);
      }
    }

    /** The eye button. */
    method ToggleShowPassword()
      modifies this
      ensures showPassword == !old(showPassword)
      ensures passwordStrength == old(passwordStrength)
    {
      showPassword := !showPassword;
    }
  }
}
