/**
 * The validation class of a training form: its four decorated fields, the
 * constraints those decorators check, and the errors a validation run with
 * the form's validator options reports.
 */
module TrainingValidation {
  import opened Js
  import opened Calendar
  import opened WorkoutTypes

  /** A JavaScript value as the validators see it. */
  datatype JsValue = JsString(s: string) | JsNumber(n: Number) | JsOther

  /** The options of an `IsNumber` check. */
  datatype NumberOptions = NumberOptions(allowNaN: bool, allowInfinity: bool, maxDecimalPlaces: nat)

  /** `numberOptions`: finite numbers only, at most one decimal place. */
  const DistanceNumberOptions: NumberOptions := NumberOptions(false, false, 1)

  /**
   * One decorator's check. `IsStrictDateString` is `IsDateString` with
   * `strict: true`.
   */
  datatype Constraint =
    | IsStrictDateString
    | IsString
    | IsIn(allowed: seq<string>)
    | IsNumber(options: NumberOptions)
    | Min(min: real)
    | MaxLength(max: nat)

  /** The number of Unicode variation selectors (U+FE0E, U+FE0F) in `s`. */
  function VariationSelectors(s: string): (n: nat)
    ensures n <= |s|
  {
    if |s| == 0 then 0
    else (if s[0] == '\U{FE0E}' || s[0] == '\U{FE0F}' then 1 else 0) + VariationSelectors(s[1..])
  }

  /** The length `MaxLength` measures: code points, variation selectors not counted. */
  function Length(s: string): nat
  {
    |s| - VariationSelectors(s)
  }

  /** `x` has at most `places` digits after the decimal point. */
  predicate HasAtMostDecimalPlaces(x: real, places: nat)
  {
    var scaled := x * Pow10(places) as real;
    scaled.Floor as real == scaled
  }

  /**
   * Whether `value` passes the check `c`. Only numbers pass the two number
   * checks, only strings the others.
   */
  predicate Holds(c: Constraint, value: JsValue): (passes: bool)
    ensures passes && (c.IsNumber? || c.Min?) ==> value.JsNumber?
    ensures passes && !(c.IsNumber? || c.Min?) ==> value.JsString?
  {
    match c
    case IsStrictDateString => value.JsString? && IsIsoDate(value.s)
    case IsString => value.JsString?
    case IsIn(allowed) => value.JsString? && value.s in allowed
    case IsNumber(options) =>
      value.JsNumber? &&
      (match value.n
       case Infinity(_) => options.allowInfinity
       case NaN => options.allowNaN
       case Finite(x) => HasAtMostDecimalPlaces(x, options.maxDecimalPlaces))
    case Min(min) =>
      value.JsNumber? &&
      (match value.n
       case Infinity(negative) => !negative
       case NaN => false
       case Finite(x) => x >= min)
    case MaxLength(max) => value.JsString? && Length(value.s) <= max
  }

  // ---------------------------------------------------------------------
  // The decorated class

  /** The validated fields; the id is not part of the class. */
  datatype Field = Date | WorkoutType | DistanceInKM | Comment

  const AllFields: set<Field> := {Date, WorkoutType, DistanceInKM, Comment}

  /** An instance of the validation class `Training`. */
  datatype Training = Training(date: string, workoutType: string, distanceInKM: Number, comment: string)

  /** The constructor: the four arguments stored as they are, `distance` as `distanceInKM`. */
  function NewTraining(date: string, workoutType: string, distance: Number, comment: string): (t: Training)
    ensures t.date == date && t.workoutType == workoutType && t.distanceInKM == distance && t.comment == comment
  {
    Training(date, workoutType, distance, comment)
  }

  /** The value of a field. */
  function Value(t: Training, field: Field): JsValue
  {
    match field
    case Date => JsString(t.date)
    case WorkoutType => JsString(t.workoutType)
    case DistanceInKM => JsNumber(t.distanceInKM)
    case Comment => JsString(t.comment)
  }

  /**
   * The constraints each field is decorated with, in declaration order: one
   * for the date and two for every other field, none of them twice.
   */
  function Decorators(field: Field): (constraints: seq<Constraint>)
    ensures |constraints| == if field == Date then 1 else 2
    ensures forall i, j :: 0 <= i < j < |constraints| ==> constraints[i] != constraints[j]
  {
    match field
    case Date => [IsStrictDateString]
    case WorkoutType => [IsString, IsIn(WorkoutTuple)]
    case DistanceInKM => [IsNumber(DistanceNumberOptions), Min(0.1)]
    case Comment => [IsString, MaxLength(1000)]
  }

  /** The constraints of `field` that `t` fails. */
  function Failing(t: Training, field: Field): set<Constraint>
  {
    set c | c in Decorators(field) && !Holds(c, Value(t, field))
  }

  /**
   * A validation run under the form's `validatorOptions`: every field that
   * fails at least one of its constraints, mapped to all the constraints it
   * fails. Of those options only `stopAtFirstError: false` bears on which
   * constraints are reported, and it is built in: every failing constraint of
   * a field is listed, not just the first. The other two options shape the
   * error objects and their messages, which are not modelled.
   */
  function Validate(t: Training): (errors: map<Field, set<Constraint>>)
    ensures forall f :: f in errors ==> errors[f] != {} && forall c :: c in errors[f] ==> c in Decorators(f)
    ensures forall f, c :: c in Decorators(f) ==> (f in errors && c in errors[f] <==> !Holds(c, Value(t, f)))
  {
    assert forall f, c :: c in Decorators(f) && !Holds(c, Value(t, f)) ==> f in AllFields && c in Failing(t, f) by {
      forall f, c | c in Decorators(f) && !Holds(c, Value(t, f)) ensures f in AllFields && c in Failing(t, f) {
        assert f.Date? || f.WorkoutType? || f.DistanceInKM? || f.Comment?;
      }
    }
    map f | f in AllFields && Failing(t, f) != {} :: Failing(t, f)
  }

  // ---------------------------------------------------------------------
  // What a valid training is

  /** A training the form may save, field by field. */
  predicate ValidDate(date: string) { IsIsoDate(date) }
  predicate ValidWorkoutType(workoutType: string) { workoutType in WorkoutTuple }
  predicate ValidDistance(distance: Number) { distance.Finite? && distance.value >= 0.1 && (distance.value * 10.0).Floor as real == distance.value * 10.0 }
  predicate ValidComment(comment: string) { Length(comment) <= 1000 }

  predicate ValidField(t: Training, field: Field)
  {
    match field
    case Date => ValidDate(t.date)
    case WorkoutType => ValidWorkoutType(t.workoutType)
    case DistanceInKM => ValidDistance(t.distanceInKM)
    case Comment => ValidComment(t.comment)
  }

  /** A field is reported exactly when it is not valid. */
  lemma FailingIffInvalid(t: Training, field: Field)
    ensures Failing(t, field) == {} <==> ValidField(t, field)
  {
    var decorators := Decorators(field);
    if ValidField(t, field) {
      forall c | c in decorators ensures Holds(c, Value(t, field)) {
        assert Pow10(1) == 10;
      }
    } else {
      assert Pow10(1) == 10;
      if field == Date {
        assert IsStrictDateString in Failing(t, field);
      } else if field == WorkoutType {
        assert IsIn(WorkoutTuple) in Failing(t, field);
      } else if field == DistanceInKM {
        if !t.distanceInKM.Finite? || (t.distanceInKM.value * 10.0).Floor as real != t.distanceInKM.value * 10.0 {
          assert IsNumber(DistanceNumberOptions) in Failing(t, field);
        } else {
          assert Min(0.1) in Failing(t, field);
        }
      } else {
        assert MaxLength(1000) in Failing(t, field);
      }
    }
  }

  /**
   * With every error reported, the run reports exactly the invalid fields,
   * so it reports nothing exactly when all four fields are valid.
   */
  lemma ValidateReportsInvalidFields(t: Training)
    ensures forall f :: f in Validate(t) <==> !ValidField(t, f)
    ensures Validate(t) == map[] <==> (ValidDate(t.date) && ValidWorkoutType(t.workoutType)
                                        && ValidDistance(t.distanceInKM) && ValidComment(t.comment))
  {
    FailingIffInvalid(t, Date);
    FailingIffInvalid(t, WorkoutType);
    FailingIffInvalid(t, DistanceInKM);
    FailingIffInvalid(t, Comment);
    var errors := Validate(t);
    if errors == map[] {
      assert Date !in errors && WorkoutType !in errors && DistanceInKM !in errors && Comment !in errors;
    } else {
      var f :| f in errors;
    }
  }

  /** The form's constructor call is valid exactly when its four arguments are. */
  lemma NewTrainingValidity(date: string, workoutType: string, distance: Number, comment: string)
    ensures Validate(NewTraining(date, workoutType, distance, comment)) == map[]
      <==> IsIsoDate(date) && workoutType in WorkoutTuple
           && distance.Finite? && distance.value >= 0.1 && HasAtMostDecimalPlaces(distance.value, 1)
           && Length(comment) <= 1000
  {
    ValidateReportsInvalidFields(NewTraining(date, workoutType, distance, comment));
    assert Pow10(1) == 10;
  }

  // ---------------------------------------------------------------------
  // Boundaries

  /** A comment of 1000 characters passes `MaxLength`; one of 1001 characters, none a variation selector, fails. */
  lemma CommentLengthBoundary(short: string, long: string)
    requires |short| == 1000
    requires |long| == 1001 && VariationSelectors(long) == 0
    ensures Holds(MaxLength(1000), JsString(short))
    ensures !Holds(MaxLength(1000), JsString(long))
  {
  }

  /** 0.05 km fails both number checks of the distance; 0.1 km passes both. */
  lemma DistanceBoundary()
    ensures !Holds(Min(0.1), JsNumber(Finite(0.05)))
    ensures !Holds(IsNumber(DistanceNumberOptions), JsNumber(Finite(0.05)))
    ensures Holds(Min(0.1), JsNumber(Finite(0.1)))
    ensures Holds(IsNumber(DistanceNumberOptions), JsNumber(Finite(0.1)))
    ensures Holds(Min(0.1), JsNumber(Infinity(false))) && !Holds(IsNumber(DistanceNumberOptions), JsNumber(Infinity(false)))
    ensures !Holds(Min(0.1), JsNumber(NaN)) && !Holds(IsNumber(DistanceNumberOptions), JsNumber(NaN))
  {
    assert Pow10(1) == 10;
    assert (0.05 * 10.0).Floor == 0;
  }

  /** The distance is reported with exactly the number checks it fails. */
  lemma DistanceReport(t: Training)
    ensures var v, number, min := JsNumber(t.distanceInKM), IsNumber(DistanceNumberOptions), Min(0.1);
      && (DistanceInKM in Validate(t) <==> !Holds(number, v) || !Holds(min, v))
      && (DistanceInKM in Validate(t) ==>
            Validate(t)[DistanceInKM] == (if Holds(number, v) then {} else {number}) + (if Holds(min, v) then {} else {min}))
  {
    var v, number, min := JsNumber(t.distanceInKM), IsNumber(DistanceNumberOptions), Min(0.1);
    assert Value(t, DistanceInKM) == v;
    assert Decorators(DistanceInKM) == [number, min];
    assert number in Decorators(DistanceInKM) && min in Decorators(DistanceInKM);
  }

  /**
   * Every failing constraint of a field is reported: 0.05 km fails both number
   * checks, 0.15 km only the one on decimal places, and 7.5 km neither.
   */
  lemma DistanceErrors(date: string, workoutType: string, comment: string)
    ensures var errors := Validate(NewTraining(date, workoutType, Finite(0.05), comment));
      DistanceInKM in errors && errors[DistanceInKM] == {IsNumber(DistanceNumberOptions), Min(0.1)}
    ensures var errors := Validate(NewTraining(date, workoutType, Finite(0.15), comment));
      DistanceInKM in errors && errors[DistanceInKM] == {IsNumber(DistanceNumberOptions)}
    ensures DistanceInKM !in Validate(NewTraining(date, workoutType, Finite(7.5), comment))
  {
    var number, min := IsNumber(DistanceNumberOptions), Min(0.1);
    assert Pow10(1) == 10;
    assert !Holds(number, JsNumber(Finite(0.05))) && !Holds(min, JsNumber(Finite(0.05))) by {
      assert (0.05 * 10.0).Floor == 0;
    }
    assert !Holds(number, JsNumber(Finite(0.15))) && Holds(min, JsNumber(Finite(0.15))) by {
      assert (0.15 * 10.0).Floor == 1;
    }
    assert Holds(number, JsNumber(Finite(7.5))) && Holds(min, JsNumber(Finite(7.5))) by {
      assert (7.5 * 10.0).Floor == 75;
    }
    DistanceReport(NewTraining(date, workoutType, Finite(0.05), comment));
    DistanceReport(NewTraining(date, workoutType, Finite(0.15), comment));
    DistanceReport(NewTraining(date, workoutType, Finite(7.5), comment));
  }

  /** Passing `IsIn` implies passing `IsString`: the workout type's two checks fail together on non-strings. */
  lemma IsInImpliesIsString(allowed: seq<string>, value: JsValue)
    ensures Holds(IsIn(allowed), value) ==> Holds(IsString, value)
  {
  }

  /** A workout type's check passes exactly for the four members of the tuple. */
  lemma WorkoutTypeCheck(value: JsValue)
    ensures Holds(IsIn(WorkoutTuple), value) <==> value in [JsString(WALKING), JsString(RUNNING), JsString(CYCLING), JsString(SKIING)]
  {
  }
}
