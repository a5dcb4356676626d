/** The create-profile form: four text fields validated on blur, a list of
    identity labels toggled by chips (kept twice, as the labels selected and as
    the identities sent with the profile), and the submit guard. */
module CreateProfile {
  import opened JsStrings
  import opened Seqs

  datatype Identity = Identity(name: string)

  /** A value of the `inputError` record: an error flag or a helper message. */
  datatype ErrorValue = Flag(on: bool) | Message(text: string)

  datatype Verdict = Required | InvalidCharacters | TooLong | Accepted

  const MaxLength := 255

  /** `length` counts UTF-16 code units: a character beyond the Basic
      Multilingual Plane counts twice. */
  function Utf16Length(s: string): (n: nat)
    ensures |s| <= n <= 2 * |s|
  {
    if s == [] then 0 else (if (s[0] as int) > 0xFFFF then 2 else 1) + Utf16Length(s[1..])
  }

  /** The characters `/[^a-zA-Z -]/` does not flag. */
  predicate NameChar(c: char) {
    ('a' <= c <= 'z') || ('A' <= c <= 'Z') || c == ' ' || c == '-'
  }

  /** The character rule applies to these two fields only. */
  predicate IsNameField(fieldName: string) {
    fieldName == "name" || fieldName == "username"
  }

  predicate HasInvalidChar(value: string) {
    exists i :: 0 <= i < |value| && !NameChar(value[i])
  }

  /** The rules in order: required, then characters (on the untrimmed value), then length (on the trimmed one). */
  function Validate(fieldName: string, value: string): Verdict {
    if Trim(value) == "" then Required
    else if HasInvalidChar(value) && IsNameField(fieldName) then InvalidCharacters
    else if Utf16Length(Trim(value)) > MaxLength then TooLong
    else Accepted
  }

  /** A value is accepted exactly when it has a non-white-space character, its trimmed
      length is at most 255 and, for `name` and `username`, it uses only letters,
      spaces and hyphens. */
  lemma AcceptedIff(fieldName: string, value: string)
    ensures Validate(fieldName, value) == Accepted <==>
      (exists i :: 0 <= i < |value| && !IsWhiteSpace(value[i])) &&
      Utf16Length(Trim(value)) <= MaxLength &&
      (IsNameField(fieldName) ==> forall i :: 0 <= i < |value| ==> NameChar(value[i]))
  {
    TrimEmptyIff(value);
  }

  /** Pronouns and location accept any characters. */
  lemma FreeTextFields(fieldName: string, value: string)
    requires fieldName == "pronouns" || fieldName == "location"
    ensures Validate(fieldName, value) != InvalidCharacters
  {
  }

  /** The helper text shown under the field; empty exactly when the value is accepted. */
  function HelperText(fieldName: string, verdict: Verdict): (r: string)
    ensures r == "" <==> verdict == Accepted
  {
    match verdict
    case Required => fieldName + " required"
    case InvalidCharacters => "Invalid characters"
    case TooLong => "Maximum length is 255 charcaters"
    case Accepted => ""
  }

  function ErrorKey(fieldName: string): string { fieldName + "Error" }
  function MessageKey(fieldName: string): string { fieldName + "ErrorMessage" }

  lemma KeysDiffer(fieldName: string)
    ensures ErrorKey(fieldName) != MessageKey(fieldName)
  {
    assert |ErrorKey(fieldName)| != |MessageKey(fieldName)|;
  }

  /** The error record after validating one field. */
  function AfterValidation(errors: map<string, ErrorValue>, fieldName: string, value: string): map<string, ErrorValue> {
    var verdict := Validate(fieldName, value);
    errors[ErrorKey(fieldName) := Flag(verdict != Accepted)][MessageKey(fieldName) := Message(HelperText(fieldName, verdict))]
  }

  /** Validation writes the field's flag and message and leaves every other key as it was. */
  lemma AfterValidationKeys(errors: map<string, ErrorValue>, fieldName: string, value: string)
    ensures var e := AfterValidation(errors, fieldName, value);
      e.Keys == errors.Keys + {ErrorKey(fieldName), MessageKey(fieldName)} &&
      e[ErrorKey(fieldName)] == Flag(Validate(fieldName, value) != Accepted) &&
      e[MessageKey(fieldName)] == Message(HelperText(fieldName, Validate(fieldName, value))) &&
      forall k :: k in errors && k != ErrorKey(fieldName) && k != MessageKey(fieldName) ==> e[k] == errors[k]
  {
    KeysDiffer(fieldName);
  }

  /** `Object.values(inputError).some((el) => el === true)`: a message is never `true`. */
  predicate Blocked(errors: map<string, ErrorValue>) {
    exists k :: k in errors && errors[k] == Flag(true)
  }

  /** After validating a field, submission is blocked exactly when that field failed
      or another field's flag was already raised. */
  lemma BlockedAfterValidation(errors: map<string, ErrorValue>, fieldName: string, value: string)
    ensures Blocked(AfterValidation(errors, fieldName, value)) <==>
      Validate(fieldName, value) != Accepted ||
      exists k :: k in errors && k != ErrorKey(fieldName) && k != MessageKey(fieldName) && errors[k] == Flag(true)
  {
    AfterValidationKeys(errors, fieldName, value);
    var e := AfterValidation(errors, fieldName, value);
    if Validate(fieldName, value) != Accepted {
      assert e[ErrorKey(fieldName)] == Flag(true);
    }
    if Blocked(e) && Validate(fieldName, value) == Accepted {
      var k :| k in e && e[k] == Flag(true);
      assert k != ErrorKey(fieldName) && k != MessageKey(fieldName);
    }
  }

  const InitialErrors: map<string, ErrorValue> := map[
    "usernameError" := Flag(false), "usernameErrorMessage" := Message(""),
    "pronounsError" := Flag(false), "pronounsErrorMessage" := Message(""),
    "locationError" := Flag(false), "locationErrorMessage" := Message("")]

  /** A form submitted before any field lost focus is not blocked, since every flag starts
      lowered: the required fields are checked only on blur. */
  lemma UntouchedFormNotBlocked()
    ensures !Blocked(InitialErrors)
  {
  }

  /** The identities' names, as the chips compare them. */
  function Names(identities: seq<Identity>): (r: seq<string>)
    ensures |r| == |identities|
  {
    if identities == [] then [] else [identities[0].name] + Names(identities[1..])
  }

  /** `identities.filter((labelFilter) => labelFilter.name !== label)`. */
  function WithoutName(identities: seq<Identity>, chip: string): (r: seq<Identity>)
    ensures |r| <= |identities|
    ensures forall i :: 0 <= i < |r| ==> r[i].name != chip && r[i] in identities
  {
    if identities == [] then []
    else (if identities[0].name == chip then [] else [identities[0]]) + WithoutName(identities[1..], chip)
  }

  lemma {:induction false} NamesConcat(a: seq<Identity>, b: seq<Identity>)
    ensures Names(a + b) == Names(a) + Names(b)
  {
    if a == [] {
      assert a + b == b;
    } else {
      assert (a + b)[0] == a[0] && (a + b)[1..] == a[1..] + b;
      NamesConcat(a[1..], b);
    }
  }

  /** Filtering identities by name filters their names the same way. */
  lemma {:induction false} NamesWithoutName(identities: seq<Identity>, chip: string)
    ensures Names(WithoutName(identities, chip)) == RemoveAll(Names(identities), chip)
  {
    if identities != [] {
      NamesWithoutName(identities[1..], chip);
      var head := if identities[0].name == chip then [] else [identities[0]];
      NamesConcat(head, WithoutName(identities[1..], chip));
      assert Names(identities)[0] == identities[0].name && Names(identities)[1..] == Names(identities[1..]);
    }
  }

  class ProfilePage {
    var fields: map<string, string>
    var identities: seq<Identity>
    var selectedLabels: seq<string>
    var inputError: map<string, ErrorValue>
    var pageStatus: string
    var snackbarOpen: bool
    var snackbarMessage: string

    /** The identities sent with the profile are exactly the selected labels. */
    ghost predicate Valid()
      reads this
    {
      Names(identities) == selectedLabels
    }

    constructor ()
      ensures Valid()
      ensures fields == map["name" := "", "username" := "", "pronouns" := "", "location" := ""]
      ensures identities == [] && selectedLabels == [] && inputError == InitialErrors
      ensures pageStatus == "" && !snackbarOpen && snackbarMessage == ""
    {
      fields := map["name" := "", "username" := "", "pronouns" := "", "location" := ""];
      identities := [];
      selectedLabels := [];
      inputError := InitialErrors;
      pageStatus := "";
      snackbarOpen := false;
      snackbarMessage := "";
    }

    /** A chip click: a selected label is removed from both lists, an unselected one appended to both. */
    method AddLabel(chip: string)
      requires Valid()
      modifies this`identities, this`selectedLabels
      ensures Valid()
      ensures selectedLabels == Toggle(old(selectedLabels), chip)
      ensures identities == if chip in old(selectedLabels) then WithoutName(old(identities), chip)
                            else old(identities) + [Identity(chip)]
    {
      if chip in selectedLabels {
        NamesWithoutName(identities, chip);
        identities := WithoutName(identities, chip);
        selectedLabels := RemoveAll(selectedLabels, chip);
      } else {
        NamesConcat(identities, [Identity(chip)]);
        identities := identities + [Identity(chip)];
        selectedLabels := selectedLabels + [chip];
      }
    }

    /** A keystroke in a text field sets that field only. */
    method HandleChange(name: string, value: string)
      modifies this`fields
      ensures fields == old(fields)[name := value]
    {
      fields := fields[name := value];
    }

    /** The blur handler of a field. */
    method FieldValidation(fieldName: string, value: string)
      modifies this`inputError
      ensures inputError == AfterValidation(old(inputError), fieldName, value)
    {
      var verdict := Validate(fieldName, value);
      inputError := inputError[ErrorKey(fieldName) := Flag(verdict != Accepted)];
      inputError := inputError[MessageKey(fieldName) := Message(HelperText(fieldName, verdict))];
    }

    /** Submit: any raised flag opens the snackbar instead of submitting. */
    method SaveUser()
      modifies this`pageStatus, this`snackbarOpen, this`snackbarMessage
      ensures Blocked(inputError) ==>
        snackbarOpen && snackbarMessage == "Please fix errors before submitting" && pageStatus == old(pageStatus)
      ensures !Blocked(inputError) ==>
        pageStatus == "userSubmitted" && snackbarOpen == old(snackbarOpen) && snackbarMessage == old(snackbarMessage)
    {
      if exists k :: k in inputError && inputError[k] == Flag(true) {
        snackbarOpen := true;
        snackbarMessage := "Please fix errors before submitting";
        return;
      }
      pageStatus := "userSubmitted";
    }

    method CloseSnackBar()
      modifies this`snackbarOpen
      ensures !snackbarOpen
    {
      snackbarOpen := false;
    }
  }

  /** Selecting a label and clicking it again leaves both lists as they were. */
  lemma SelectTwice(identities: seq<Identity>, chip: string)
    requires chip !in Names(identities)
    ensures WithoutName(identities + [Identity(chip)], chip) == identities
    ensures Toggle(Toggle(Names(identities), chip), chip) == Names(identities)
  {
    ToggleTwiceAbsent(Names(identities), chip);
    WithoutNameAbsent(identities, chip);
    WithoutNameConcat(identities, [Identity(chip)], chip);
  }

  lemma {:induction false} WithoutNameAbsent(identities: seq<Identity>, chip: string)
    requires chip !in Names(identities)
    ensures WithoutName(identities, chip) == identities
  {
    if identities != [] {
      assert Names(identities) == [identities[0].name] + Names(identities[1..]);
      WithoutNameAbsent(identities[1..], chip);
    }
  }

  lemma {:induction false} WithoutNameConcat(a: seq<Identity>, b: seq<Identity>, chip: string)
    ensures WithoutName(a + b, chip) == WithoutName(a, chip) + WithoutName(b, chip)
  {
    if a == [] {
      assert a + b == b;
    } else {
      assert (a + b)[0] == a[0] && (a + b)[1..] == a[1..] + b;
      WithoutNameConcat(a[1..], b, chip);
    }
  }
}
