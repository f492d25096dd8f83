/**
 * `validateUserData`: a chain of guards over a loosely typed record. Each
 * field the record owns is held to its rule, in a fixed order, and the first
 * field that breaks its rule decides the message.
 */
module UserValidate {
  import opened Helpers
  import opened Json
  import opened Text

  /** A call either returns a `{ isValid, message }` record or throws a `TypeError`. */
  datatype Checked = Returned(v: Validation) | ThrewTypeError

  /**
   * The tests the validator delegates: the email and phone regular
   * expressions and `mongoose.Types.ObjectId.isValid`.
   */
  datatype Formats = Formats(email: string -> bool, phone: string -> bool, objectId: Json -> bool)

  const MsgNotObject := "Datos inválidos: no es un objeto válido."
  const MsgName := "El campo 'Nombre' no puede estar vacío."
  const MsgLastName := "El campo 'Apellido' no puede estar vacío."
  const MsgAddress := "El campo 'Dirección' no puede estar vacío."
  const MsgDniType := "El campo 'DNI' es inválido."
  const MsgDniDigits := "El campo 'DNI' debe contar con al menos 10 dígitos numéricos."
  const MsgEmail := "El campo 'Email' debe tener un formato de email válido."
  const MsgPhone := "El campo 'Teléfono' debe tener un formato válido con o sin código de país."
  const MsgActive := "El campo 'Activo' debe ser un booleano."
  const MsgRole := "El campo 'Rol' es inválido."
  const MsgId := "El campo 'ID' es inválido."
  const MsgPassword := "El campo 'Contraseña' no puede estar vacío."
  const MsgConfirm := "El campo 'Confirmar Contraseña' no puede estar vacío."

  /** A string whose `trim()` is not empty. */
  predicate NonBlankString(v: Json)
  {
    v.JStr? && !IsBlank(v.s)
  }

  /** A DNI: a string whose trimmed form is at least ten decimal digits. */
  predicate DniShape(v: Json)
  {
    v.JStr? && |Trim(v.s)| >= 10 && AllDigits(Trim(v.s))
  }

  /** The fields the validator checks. */
  datatype Field = Name | LastName | Address | Dni | Email | Phone | IsActive | Role | Id | Password | ConfirmPassword

  /** The property name of each checked field. */
  function Key(f: Field): string
  {
    match f
    case Name => "name"
    case LastName => "lastName"
    case Address => "address"
    case Dni => "dni"
    case Email => "email"
    case Phone => "phone"
    case IsActive => "isActive"
    case Role => "role"
    case Id => "_id"
    case Password => "password"
    case ConfirmPassword => "confirmPassword"
  }

  /** The order in which the fields are checked. */
  const FieldOrder: seq<Field> :=
    [Name, LastName, Address, Dni, Email, Phone, IsActive, Role, Id, Password, ConfirmPassword]

  /** What a single field's rule says about the field on its own. */
  datatype FieldVerdict = Pass | Fail(message: string) | Throw

  /** Each field's rule in isolation: an absent field always passes. */
  function CheckField(data: Json, f: Field, fmt: Formats): FieldVerdict
  {
    if !HasOwn(data, Key(f)) then Pass
    else
      var v := data.fields[Key(f)];
      match f
      case Name => if NonBlankString(v) then Pass else Fail(MsgName)
      case LastName => if NonBlankString(v) then Pass else Fail(MsgLastName)
      case Address => if NonBlankString(v) then Pass else Fail(MsgAddress)
      case Dni => if !v.JStr? then Fail(MsgDniType) else if DniShape(v) then Pass else Fail(MsgDniDigits)
      case Email => if NonBlankString(v) && !fmt.email(v.s) then Fail(MsgEmail) else Pass
      case Phone => if !v.JStr? then Throw else if !IsBlank(v.s) && !fmt.phone(Trim(v.s)) then Fail(MsgPhone) else Pass
      case IsActive => if v.JBool? then Pass else Fail(MsgActive)
      case Role => if v.JStr? && fmt.objectId(v) then Pass else Fail(MsgRole)
      case Id => if v.JStr? && fmt.objectId(v) then Pass else Fail(MsgId)
      case Password => if NonBlankString(v) then Pass else Fail(MsgPassword)
      case ConfirmPassword => if NonBlankString(v) then Pass else Fail(MsgConfirm)
  }

  /** What the validator returns once a field's rule has failed. */
  function Report(f: FieldVerdict): Checked
    requires !f.Pass?
  {
    if f.Throw? then ThrewTypeError else Returned(Invalid(f.message))
  }

  /**
   * Checking `ks` in order with `check`: the first one whose rule fails
   * decides the result.
   */
  function FirstFailure<F>(ks: seq<F>, check: F -> FieldVerdict): Checked
    decreases |ks|
  {
    if ks == [] then Returned(Valid)
    else
      var f := check(ks[0]);
      if f.Pass? then FirstFailure(ks[1..], check) else Report(f)
  }

  /**
   * What the ordered check means: the record is valid exactly when every
   * check passes, and otherwise the result is the report of a failing check
   * all of whose predecessors pass.
   */
  lemma {:induction false} FirstFailureMeaning<F>(ks: seq<F>, check: F -> FieldVerdict)
    ensures FirstFailure(ks, check) == Returned(Valid) <==>
      forall j :: 0 <= j < |ks| ==> check(ks[j]).Pass?
    ensures FirstFailure(ks, check) != Returned(Valid) ==>
      exists j :: 0 <= j < |ks| && !check(ks[j]).Pass?
        && FirstFailure(ks, check) == Report(check(ks[j]))
        && forall i :: 0 <= i < j ==> check(ks[i]).Pass?
    decreases |ks|
  {
    if ks != [] && check(ks[0]).Pass? {
      FirstFailureMeaning(ks[1..], check);
      assert forall j :: 1 <= j < |ks| ==> ks[j] == ks[1..][j - 1];
      if FirstFailure(ks, check) != Returned(Valid) {
        var j :| 0 <= j < |ks| - 1 && !check(ks[1..][j]).Pass?
          && FirstFailure(ks, check) == Report(check(ks[1..][j]))
          && forall i :: 0 <= i < j ==> check(ks[1..][i]).Pass?;
        assert check(ks[j + 1]) == check(ks[1..][j]);
      }
    }
  }

  /** `FirstFailure` from position `i` of a list, unrolled one step. */
  lemma FirstFailureStep<F>(ks: seq<F>, i: nat, check: F -> FieldVerdict)
    requires i <= |ks|
    ensures FirstFailure(ks[i..], check) ==
      if i == |ks| then Returned(Valid)
      else if check(ks[i]).Pass? then FirstFailure(ks[i + 1..], check)
      else Report(check(ks[i]))
  {
  }

  /** The field rules of one record, as a function of the field. */
  function Rules(data: Json, fmt: Formats): Field -> FieldVerdict
  {
    f => CheckField(data, f, fmt)
  }

  /**
   * `validateUserData(data)`. Anything but a non-null object is refused. A
   * JSON object that owns a `hasOwnProperty` key shadows the method, so the
   * first `data.hasOwnProperty(...)` call throws; otherwise the fields are
   * checked in `FieldOrder` and the first that breaks its rule decides (a
   * `phone` that is not a string throws at `data.phone.trim()`).
   */
  function ValidateUserData(data: Json, fmt: Formats): (r: Checked)
    ensures !IsObject(data) ==> r == Returned(Invalid(MsgNotObject))
    ensures HasOwn(data, "hasOwnProperty") ==> r == ThrewTypeError
    ensures data.JArr? ==> r == Returned(Valid)
  {
    if !IsObject(data) then Returned(Invalid(MsgNotObject))
    else if HasOwn(data, "hasOwnProperty") then ThrewTypeError
    else
      FirstFailureMeaning(FieldOrder, Rules(data, fmt));
      FirstFailure(FieldOrder, Rules(data, fmt))
  }

  /** The rule a field must keep when the record owns it, stated positively. */
  predicate KeepsRule(data: Json, f: Field, fmt: Formats)
  {
    HasOwn(data, Key(f)) ==>
      var v := data.fields[Key(f)];
      match f
      case Name => NonBlankString(v)
      case LastName => NonBlankString(v)
      case Address => NonBlankString(v)
      case Dni => DniShape(v)
      case Email => NonBlankString(v) ==> fmt.email(v.s)
      case Phone => v.JStr? && (!IsBlank(v.s) ==> fmt.phone(Trim(v.s)))
      case IsActive => v.JBool?
      case Role => v.JStr? && fmt.objectId(v)
      case Id => v.JStr? && fmt.objectId(v)
      case Password => NonBlankString(v)
      case ConfirmPassword => NonBlankString(v)
  }

  /** A record every one of whose owned, checked fields keeps its rule. */
  predicate Acceptable(data: Json, fmt: Formats)
  {
    forall f: Field :: KeepsRule(data, f, fmt)
  }

  /** A field passes its check exactly when it keeps its rule. */
  lemma PassIffKeepsRule(data: Json, f: Field, fmt: Formats)
    ensures CheckField(data, f, fmt).Pass? <==> KeepsRule(data, f, fmt)
  {
  }

  /** Only a `phone` that is owned and not a string makes its check throw. */
  lemma OnlyPhoneThrows(data: Json, f: Field, fmt: Formats)
    ensures CheckField(data, f, fmt).Throw? <==>
      f == Phone && HasOwn(data, "phone") && !data.fields["phone"].JStr?
  {
  }

  /** Every field passes exactly when every field of `FieldOrder` passes. */
  lemma AllFieldsInOrder(data: Json, fmt: Formats)
    ensures (forall j :: 0 <= j < |FieldOrder| ==> CheckField(data, FieldOrder[j], fmt).Pass?) <==>
      forall f: Field :: CheckField(data, f, fmt).Pass?
  {
    if forall j :: 0 <= j < |FieldOrder| ==> CheckField(data, FieldOrder[j], fmt).Pass? {
      forall f: Field ensures CheckField(data, f, fmt).Pass? {
        var j := match f
          case Name => 0 case LastName => 1 case Address => 2 case Dni => 3 case Email => 4
          case Phone => 5 case IsActive => 6 case Role => 7 case Id => 8 case Password => 9
          case ConfirmPassword => 10;
        assert FieldOrder[j] == f;
      }
    }
  }

  /**
   * The validator accepts exactly the objects that do not shadow
   * `hasOwnProperty` and whose every owned field keeps its rule.
   */
  lemma {:induction false} ValidIffAcceptable(data: Json, fmt: Formats)
    ensures ValidateUserData(data, fmt) == Returned(Valid) <==>
      IsObject(data) && !HasOwn(data, "hasOwnProperty") && Acceptable(data, fmt)
  {
    FirstFailureMeaning(FieldOrder, Rules(data, fmt));
    AllFieldsInOrder(data, fmt);
    forall f: Field ensures CheckField(data, f, fmt).Pass? <==> KeepsRule(data, f, fmt) {
      PassIffKeepsRule(data, f, fmt);
    }
  }

  /**
   * Only two things make the validator throw: an own `hasOwnProperty` key,
   * or a `phone` that is not a string once the five fields checked before it
   * have passed.
   */
  lemma {:induction false} ThrowsOnlyFor(data: Json, fmt: Formats)
    ensures ValidateUserData(data, fmt) == ThrewTypeError <==>
      IsObject(data) &&
      (HasOwn(data, "hasOwnProperty") ||
       (HasOwn(data, "phone") && !data.fields["phone"].JStr?
        && forall j :: 0 <= j < 5 ==> CheckField(data, FieldOrder[j], fmt).Pass?))
  {
    if IsObject(data) && !HasOwn(data, "hasOwnProperty") {
      FirstFailureMeaning(FieldOrder, Rules(data, fmt));
      var r := FirstFailure(FieldOrder, Rules(data, fmt));
      if r == ThrewTypeError {
        var j :| 0 <= j < |FieldOrder| && !CheckField(data, FieldOrder[j], fmt).Pass?
          && r == Report(CheckField(data, FieldOrder[j], fmt))
          && forall i :: 0 <= i < j ==> CheckField(data, FieldOrder[i], fmt).Pass?;
        OnlyPhoneThrows(data, FieldOrder[j], fmt);
        assert FieldOrder[j] == Phone;
        assert j == 5;
      } else if HasOwn(data, "phone") && !data.fields["phone"].JStr? {
        OnlyPhoneThrows(data, Phone, fmt);
        FirstFailureStep(FieldOrder, 0, Rules(data, fmt));
        FirstFailureStep(FieldOrder, 1, Rules(data, fmt));
        FirstFailureStep(FieldOrder, 2, Rules(data, fmt));
        FirstFailureStep(FieldOrder, 3, Rules(data, fmt));
        FirstFailureStep(FieldOrder, 4, Rules(data, fmt));
        FirstFailureStep(FieldOrder, 5, Rules(data, fmt));
      }
    }
  }

  /** An object that owns none of the checked fields (nor `hasOwnProperty`) is valid. */
  lemma NoCheckedFieldsValid(data: Json, fmt: Formats)
    requires IsObject(data) && !HasOwn(data, "hasOwnProperty")
    requires forall f: Field :: !HasOwn(data, Key(f))
    ensures ValidateUserData(data, fmt) == Returned(Valid)
  {
  }
}
