/**
 * The form validation framework of validation.py: per-field validators that return the value
 * (possibly converted) or an error message, and the stateful `FormDataValidator` that registers
 * validators per field and runs them over its own copy of the form data.
 */
module Validation {
  import opened Outcomes
  import opened Seqs

  /** A form value: a number (Python int or float) or a string. */
  datatype Value = Num(n: real) | Str(s: string)

  /** Python's `int(text)` and `float(text)` on strings; `None` is a `ValueError`. */
  datatype Casts = Casts(parseInt: string -> Option<int>, parseFloat: string -> Option<real>)

  datatype CastKind = IntCast | FloatCast

  /** The validators of validation.py. `Range` carries the cast of `IntRange` / `FloatRange`. */
  datatype Validator =
    | Castable(kind: CastKind, allowEmpty: bool)
    | Range(rmin: real, rmax: real, excludeMin: bool, excludeMax: bool, allowEmpty: bool, cast: Option<CastKind>)
    | Gte(bound: real, allowEmpty: bool)
    | NotEmpty
    | OneOf(items: seq<Value>)

  /** The error a validator raises, with what its message is formatted from. The range message
    * shows `]` on the left for an excluded minimum and `[` on the right for an excluded maximum. */
  datatype Message =
    | NotInteger(title: string)
    | NotFloat(title: string)
    | OutOfRange(title: string, rmin: real, rmax: real, left: char, right: char)
    | TooSmall(title: string, bound: real)
    | IsEmpty(title: string)
    | NotAmong(title: string, items: seq<Value>)
    | NotFound(title: string)

  /** The empty form value `''`. */
  const Empty: Value := Str("")

  /** Python 2's lexicographic string order. */
  predicate StrLess(a: string, b: string)
  {
    if |a| == 0 then |b| > 0
    else if |b| == 0 then false
    else a[0] < b[0] || (a[0] == b[0] && StrLess(a[1..], b[1..]))
  }

  /** Python 2's `<` on form values: numbers order before strings. */
  predicate Lt(a: Value, b: Value)
  {
    match (a, b)
    case (Num(x), Num(y)) => x < y
    case (Num(_), Str(_)) => true
    case (Str(_), Num(_)) => false
    case (Str(s), Str(t)) => StrLess(s, t)
  }

  predicate Le(a: Value, b: Value)
  {
    Lt(a, b) || a == b
  }

  /** `int(value)` or `float(value)`: a number converts (an int truncates a float), a string is parsed. */
  function Cast(kind: CastKind, casts: Casts, value: Value): Option<Value>
  {
    match (kind, value)
    case (IntCast, Num(x)) => Some(Num(TruncateTowardZero(x) as real))
    case (IntCast, Str(s)) => (match casts.parseInt(s) case Some(i) => Some(Num(i as real)) case None => None)
    case (FloatCast, Num(x)) => Some(Num(x))
    case (FloatCast, Str(s)) => (match casts.parseFloat(s) case Some(x) => Some(Num(x)) case None => None)
  }

  function CastError(kind: CastKind, title: string): Message
  {
    if kind == IntCast then NotInteger(title) else NotFloat(title)
  }

  /** The range test of `Range.validate`, an `elif` chain tried in the source's order. */
  predicate RangeFails(rmin: real, rmax: real, excludeMin: bool, excludeMax: bool, v: Value)
  {
    if excludeMin && !(Lt(Num(rmin), v) && Le(v, Num(rmax))) then true
    else if excludeMax && !(Le(Num(rmin), v) && Lt(v, Num(rmax))) then true
    else if excludeMin && excludeMax && !(Lt(Num(rmin), v) && Lt(v, Num(rmax))) then true
    else !(Le(Num(rmin), v) && Le(v, Num(rmax)))
  }

  /** `Castable.validate`, also run by `IntRange` and `FloatRange` through their `Int` / `Float`. */
  function CastableApply(kind: CastKind, allowEmpty: bool, casts: Casts, title: string, value: Value): Result<Value, Message>
  {
    if allowEmpty && value == Empty then Ok(value)
    else (match Cast(kind, casts, value) case Some(c) => Ok(c) case None => Err(CastError(kind, title)))
  }

  /** `validator.validate(name, title, value)`: the value to store, or the error raised. */
  function Apply(v: Validator, casts: Casts, title: string, value: Value): Result<Value, Message>
  {
    match v
    case Castable(kind, allowEmpty) =>
      CastableApply(kind, allowEmpty, casts, title, value)
    case Range(rmin, rmax, excludeMin, excludeMax, allowEmpty, cast) =>
      if allowEmpty && value == Empty then Ok(value)
      else
        var cv := if cast.Some? then CastableApply(cast.value, allowEmpty, casts, title, value) else Ok(value);
        if cv.Err? then cv
        else if RangeFails(rmin, rmax, excludeMin, excludeMax, cv.value) then
          Err(OutOfRange(title, rmin, rmax, if excludeMin then ']' else '[', if excludeMax then '[' else ']'))
        else cv
    case Gte(bound, allowEmpty) =>
      if allowEmpty && value == Empty then Ok(value)
      else if Lt(value, Num(bound)) then Err(TooSmall(title, bound))
      else Ok(value)
    case NotEmpty =>
      if value == Empty then Err(IsEmpty(title)) else Ok(value)
    case OneOf(items) =>
      if value in items then Ok(value) else Err(NotAmong(title, items))
  }

  /** A validator that converts its input: `Int`, `Float`, `IntRange`, `FloatRange`. */
  predicate Converts(v: Validator)
  {
    v.Castable? || (v.Range? && v.cast.Some?)
  }

  /** Every validator except the converting ones returns an accepted value unchanged; the
    * converting ones return the empty value unchanged when they allow it, or the cast value. */
  lemma {:induction false} AcceptedValue(v: Validator, casts: Casts, title: string, value: Value)
    requires Apply(v, casts, title, value).Ok?
    ensures !Converts(v) ==> Apply(v, casts, title, value).value == value
    ensures v.Castable? && !(v.allowEmpty && value == Empty) ==>
      Cast(v.kind, casts, value) == Some(Apply(v, casts, title, value).value)
    ensures v.Range? && v.cast.Some? && !(v.allowEmpty && value == Empty) ==>
      Cast(v.cast.value, casts, value) == Some(Apply(v, casts, title, value).value)
  {
  }

  /** `Castable`: with `allow_empty` the empty string passes unchanged; otherwise the value passes
    * exactly when it casts, and the cast value is what is stored. */
  lemma {:induction false} CastableOutcome(kind: CastKind, allowEmpty: bool, casts: Casts, title: string, value: Value)
    ensures allowEmpty && value == Empty ==> Apply(Castable(kind, allowEmpty), casts, title, value) == Ok(Empty)
    ensures !(allowEmpty && value == Empty) ==>
      && (Apply(Castable(kind, allowEmpty), casts, title, value).Ok? <==> Cast(kind, casts, value).Some?)
      && (Apply(Castable(kind, allowEmpty), casts, title, value).Err? ==>
            Apply(Castable(kind, allowEmpty), casts, title, value).error == CastError(kind, title))
  {
  }

  /** What the `elif` chain of `Range.validate` accepts: a closed interval without flags, half-open
    * with one flag, and with both flags the open interval (the first two tests already reject both
    * ends). Only numbers pass: in Python 2 a string is above every number. */
  lemma {:induction false} RangeAccepts(rmin: real, rmax: real, excludeMin: bool, excludeMax: bool, v: Value)
    ensures !RangeFails(rmin, rmax, excludeMin, excludeMax, v) <==>
      && v.Num?
      && (if excludeMin then rmin < v.n else rmin <= v.n)
      && (if excludeMax then v.n < rmax else v.n <= rmax)
  {
  }

  /** The third test of the chain never decides: whatever passes the first two passes it. */
  lemma {:induction false} RangeThirdTestRedundant(rmin: real, rmax: real, v: Value)
    requires Lt(Num(rmin), v) && Le(v, Num(rmax))
    requires Le(Num(rmin), v) && Lt(v, Num(rmax))
    ensures Lt(Num(rmin), v) && Lt(v, Num(rmax))
  {
  }

  /** `Range`, `IntRange`, `FloatRange`: the empty string passes when allowed; otherwise the value is
    * cast first (when the validator casts) and the cast value must lie in the range, and is stored. */
  lemma {:induction false} RangeOutcome(v: Validator, casts: Casts, title: string, value: Value)
    requires v.Range?
    ensures v.allowEmpty && value == Empty ==> Apply(v, casts, title, value) == Ok(Empty)
    ensures !(v.allowEmpty && value == Empty) ==>
      var cv := if v.cast.Some? then Cast(v.cast.value, casts, value) else Some(value);
      && (Apply(v, casts, title, value).Ok? <==>
            && cv.Some? && cv.value.Num?
            && (if v.excludeMin then v.rmin < cv.value.n else v.rmin <= cv.value.n)
            && (if v.excludeMax then cv.value.n < v.rmax else cv.value.n <= v.rmax))
      && (Apply(v, casts, title, value).Ok? ==> Apply(v, casts, title, value).value == cv.value)
  {
    if !(v.allowEmpty && value == Empty) {
      var cv := if v.cast.Some? then Cast(v.cast.value, casts, value) else Some(value);
      if cv.Some? {
        RangeAccepts(v.rmin, v.rmax, v.excludeMin, v.excludeMax, cv.value);
      }
    }
  }

  /** `Gte`, `NotEmpty`, `OneOf`: the value passes unchanged exactly when it is not below the bound
    * (Python 2 order: a string is never below a number), is not empty, or is one of the items. */
  lemma {:induction false} SimpleOutcome(v: Validator, casts: Casts, title: string, value: Value)
    requires v.Gte? || v.NotEmpty? || v.OneOf?
    ensures v.Gte? ==> (Apply(v, casts, title, value).Ok? <==>
                          (v.allowEmpty && value == Empty) || value.Str? || v.bound <= value.n)
    ensures v.NotEmpty? ==> (Apply(v, casts, title, value).Ok? <==> value != Empty)
    ensures v.OneOf? ==> (Apply(v, casts, title, value).Ok? <==> value in v.items)
    ensures Apply(v, casts, title, value).Ok? ==> Apply(v, casts, title, value).value == value
  {
  }

  /** Truncating a whole number gives it back. */
  lemma {:induction false} TruncateWhole(i: int)
    ensures TruncateTowardZero(i as real) == i
  {
  }

  /** A cast value casts to itself. */
  lemma {:induction false} CastIdempotent(kind: CastKind, casts: Casts, value: Value)
    requires Cast(kind, casts, value).Some?
    ensures Cast(kind, casts, Cast(kind, casts, value).value) == Cast(kind, casts, value)
  {
    if kind == IntCast {
      var c := Cast(kind, casts, value).value;
      TruncateWhole(TruncateTowardZero(c.n));
      if value.Num? {
        TruncateWhole(TruncateTowardZero(value.n));
      } else {
        TruncateWhole(casts.parseInt(value.s).value);
      }
    }
  }

  /** Validating an accepted value again accepts it unchanged: validated form data is a fixed point. */
  lemma {:induction false} ApplyIdempotent(v: Validator, casts: Casts, title: string, value: Value)
    requires Apply(v, casts, title, value).Ok?
    ensures Apply(v, casts, title, Apply(v, casts, title, value).value) == Apply(v, casts, title, value)
  {
    var out := Apply(v, casts, title, value).value;
    match v
    case Castable(kind, allowEmpty) =>
      if !(allowEmpty && value == Empty) {
        CastIdempotent(kind, casts, value);
      }
    case Range(rmin, rmax, excludeMin, excludeMax, allowEmpty, cast) =>
      if !(allowEmpty && value == Empty) && cast.Some? {
        CastIdempotent(cast.value, casts, value);
        RangeOutcome(v, casts, title, value);
        RangeOutcome(v, casts, title, out);
      }
    case Gte(_, _) =>
    case NotEmpty =>
    case OneOf(_) =>
  }

  /** What `OneOf(item_list)` is given: a list or a tuple of items, or anything else. */
  datatype ItemList = ListOf(items: seq<Value>) | TupleOf(items: seq<Value>) | NotASequence

  /** `OneOf.__init__`: anything but a list or a tuple is refused with a `ValueError`. */
  function NewOneOf(items: ItemList): (r: Result<Validator, string>)
    ensures r.Ok? <==> !items.NotASequence?
    ensures r.Ok? ==> r.value == OneOf(items.items)
  {
    if items.NotASequence? then Err("list or tuple expected") else Ok(OneOf(items.items))
  }

  /* ---------------------------------------------------------------------------------------------
   * FormDataValidator: registering validators per field
   * ------------------------------------------------------------------------------------------- */

  /** The entry `fields[name]` of a `FormDataValidator`. */
  datatype Field = Field(stopOnError: bool, title: string, validators: seq<Validator>)

  /** What `add` is given as its validator: one validator, a list or tuple of such (nested at any
    * depth), or anything else, which is refused with a `ValidatorTypeError`. */
  datatype Spec = One(v: Validator) | Many(specs: seq<Spec>) | NotAValidator

  /** The validators `add` registers from a spec, in order, up to the first thing that is not a
    * validator; the flag says whether the whole spec was accepted. */
  function Flatten(s: Spec): (seq<Validator>, bool)
    decreases s
  {
    match s
    case One(v) => ([v], true)
    case NotAValidator => ([], false)
    case Many(ss) => FlattenAll(ss)
  }

  function FlattenAll(ss: seq<Spec>): (seq<Validator>, bool)
    decreases ss
  {
    if ss == [] then ([], true)
    else
      var head := Flatten(ss[0]);
      if !head.1 then head
      else
        var tail := FlattenAll(ss[1..]);
        (head.0 + tail.0, tail.1)
  }

  lemma {:induction false} FlattenAllCons(ss: seq<Spec>)
    requires ss != []
    ensures !Flatten(ss[0]).1 ==> FlattenAll(ss) == Flatten(ss[0])
    ensures Flatten(ss[0]).1 ==> FlattenAll(ss) == (Flatten(ss[0]).0 + FlattenAll(ss[1..]).0, FlattenAll(ss[1..]).1)
  {
  }

  /** One round of the loop of `add`: the items done so far plus the current one. */
  lemma {:induction false} AddEachStep(ss: seq<Spec>, i: nat, done: seq<Validator>,
                                       start: Registry, name: string, title: string, stop: bool)
    requires i < |ss|
    requires FlattenAll(ss).0 == done + FlattenAll(ss[i..]).0
    requires FlattenAll(ss).1 == FlattenAll(ss[i..]).1
    ensures AddAll(AddAll(start, name, title, stop, done), name, title, stop, Flatten(ss[i]).0) ==
            AddAll(start, name, title, stop, done + Flatten(ss[i]).0)
    ensures !Flatten(ss[i]).1 ==> FlattenAll(ss) == (done + Flatten(ss[i]).0, false)
    ensures Flatten(ss[i]).1 ==>
      && FlattenAll(ss).0 == (done + Flatten(ss[i]).0) + FlattenAll(ss[i + 1..]).0
      && FlattenAll(ss).1 == FlattenAll(ss[i + 1..]).1
  {
    AddAllAppend(start, name, title, stop, done, Flatten(ss[i]).0);
    FlattenAllCons(ss[i..]);
    assert ss[i..][0] == ss[i] && ss[i..][1..] == ss[i + 1..];
  }

  /** The ordered dictionary `fields`: its keys in insertion order and its entries. */
  datatype Registry = Registry(names: seq<string>, fields: map<string, Field>)

  predicate Distinct(names: seq<string>)
  {
    forall i, j :: 0 <= i < j < |names| ==> names[i] != names[j]
  }

  /** An ordered dictionary: the order lists every key once. */
  ghost predicate Ordered(r: Registry)
  {
    Distinct(r.names) && (forall n :: n in r.names <==> n in r.fields)
  }

  /** One validator added for `name`: the first one creates the entry with its title and stop flag. */
  function AddOne(r: Registry, name: string, title: string, stop: bool, v: Validator): Registry
  {
    if name in r.fields then
      Registry(r.names, r.fields[name := r.fields[name].(validators := r.fields[name].validators + [v])])
    else
      Registry(r.names + [name], r.fields[name := Field(stop, title, [v])])
  }

  function AddAll(r: Registry, name: string, title: string, stop: bool, vs: seq<Validator>): Registry
    decreases |vs|
  {
    if vs == [] then r else AddAll(AddOne(r, name, title, stop, vs[0]), name, title, stop, vs[1..])
  }

  /** Adding in two calls is adding once. */
  lemma {:induction false} AddAllAppend(r: Registry, name: string, title: string, stop: bool, a: seq<Validator>, b: seq<Validator>)
    ensures AddAll(AddAll(r, name, title, stop, a), name, title, stop, b) == AddAll(r, name, title, stop, a + b)
    decreases |a|
  {
    if a != [] {
      assert (a + b)[0] == a[0];
      assert (a + b)[1..] == a[1..] + b;
      AddAllAppend(AddOne(r, name, title, stop, a[0]), name, title, stop, a[1..], b);
    } else {
      assert a + b == b;
    }
  }

  /** The entry a field has after validators `vs` are added to it. */
  function Entry(r: Registry, name: string, title: string, stop: bool, vs: seq<Validator>): Field
  {
    if name in r.fields then r.fields[name].(validators := r.fields[name].validators + vs)
    else Field(stop, title, vs)
  }

  /** A validator added for a new field puts the field at the end of the order, once. */
  lemma {:induction false} AddOneOrdered(r: Registry, name: string, title: string, stop: bool, v: Validator)
    requires Ordered(r)
    ensures Ordered(AddOne(r, name, title, stop, v))
  {
    var r1 := AddOne(r, name, title, stop, v);
    if name !in r.fields {
      forall i, j | 0 <= i < j < |r1.names|
        ensures r1.names[i] != r1.names[j]
      {
        if j == |r.names| {
          assert r1.names[i] == r.names[i];
          assert r.names[i] in r.fields;
        }
      }
    }
  }

  /** Adding validators keeps the dictionary ordered. */
  lemma {:induction false} AddAllOrdered(r: Registry, name: string, title: string, stop: bool, vs: seq<Validator>)
    requires Ordered(r)
    ensures Ordered(AddAll(r, name, title, stop, vs))
    decreases |vs|
  {
    if vs != [] {
      AddOneOrdered(r, name, title, stop, vs[0]);
      AddAllOrdered(AddOne(r, name, title, stop, vs[0]), name, title, stop, vs[1..]);
    }
  }

  /** The field and the order after adding validators. */
  lemma {:induction false} AddAllShape(r: Registry, name: string, title: string, stop: bool, vs: seq<Validator>)
    requires vs != []
    ensures AddAll(r, name, title, stop, vs).fields == r.fields[name := Entry(r, name, title, stop, vs)]
    ensures AddAll(r, name, title, stop, vs).names == if name in r.fields then r.names else r.names + [name]
    decreases |vs|
  {
    var r1 := AddOne(r, name, title, stop, vs[0]);
    assert r1.fields == r.fields[name := Entry(r, name, title, stop, [vs[0]])];
    if vs[1..] != [] {
      AddAllShape(r1, name, title, stop, vs[1..]);
      var e := Entry(r1, name, title, stop, vs[1..]);
      assert e == Entry(r, name, title, stop, vs) by {
        assert vs == [vs[0]] + vs[1..];
        if name in r.fields {
          assert r.fields[name].validators + [vs[0]] + vs[1..] == r.fields[name].validators + vs;
        }
      }
      assert r1.fields[name := e] == r.fields[name := e];
    } else {
      assert vs == [vs[0]];
    }
  }

  /** What `add` does to the dictionary: the validators are appended to the field's list in order;
    * the title and the stop flag are those of the first add for the field, later ones are ignored;
    * a new field goes to the end of the order; no other field changes. */
  lemma {:induction false} AddAllEffect(r: Registry, name: string, title: string, stop: bool, vs: seq<Validator>)
    requires Ordered(r)
    ensures var r' := AddAll(r, name, title, stop, vs);
      && Ordered(r')
      && (vs == [] ==> r' == r)
      && (vs != [] ==> r'.fields == r.fields[name := Entry(r, name, title, stop, vs)])
      && (vs != [] ==> r'.names == if name in r.fields then r.names else r.names + [name])
  {
    AddAllOrdered(r, name, title, stop, vs);
    if vs != [] {
      AddAllShape(r, name, title, stop, vs);
    }
  }

  /* ---------------------------------------------------------------------------------------------
   * FormDataValidator: running the validators over the form data
   * ------------------------------------------------------------------------------------------- */

  /** The form data after one field's validators, and the error that ended them, if any. */
  datatype Step = Step(data: map<string, Value>, error: Option<Message>)

  /** The inner loop of `validate` for one field: each validator gets the stored value, or `''`
    * when the form has no such field; an accepted value is stored back only when the field
    * exists; the first error ends the field. */
  function Chain(vs: seq<Validator>, casts: Casts, title: string, name: string, data: map<string, Value>): Step
    decreases |vs|
  {
    if vs == [] then Step(data, None)
    else
      var value := if name in data then data[name] else Empty;
      match Apply(vs[0], casts, title, value)
      case Err(m) => Step(data, Some(m))
      case Ok(v) => Chain(vs[1..], casts, title, name, if name in data then data[name := v] else data)
  }

  /** How a run of `validate` ended: through all fields, by a `stop_on_error` field that failed,
    * or by the `ValidationError` of strict mode for a field the form does not have. */
  datatype End = Completed | Stopped | Missing(title: string)

  datatype Outcome = Outcome(data: map<string, Value>, errors: seq<Message>, end: End)

  predicate Registered(names: seq<string>, fields: map<string, Field>)
  {
    forall n :: n in names ==> n in fields
  }

  /** The outer loop of `validate`, over the fields in the order they were added. */
  function Run(names: seq<string>, fields: map<string, Field>, strict: bool, casts: Casts,
               data: map<string, Value>, errors: seq<Message>): Outcome
    requires Registered(names, fields)
    decreases |names|
  {
    if names == [] then Outcome(data, errors, Completed)
    else
      var f := fields[names[0]];
      if strict && names[0] !in data then Outcome(data, errors, Missing(f.title))
      else
        var step := Chain(f.validators, casts, f.title, names[0], data);
        if step.error.None? then Run(names[1..], fields, strict, casts, step.data, errors)
        else if f.stopOnError then Outcome(step.data, errors + [step.error.value], Stopped)
        else Run(names[1..], fields, strict, casts, step.data, errors + [step.error.value])
  }

  /** What `validate` returns, or the error it raises. */
  function Verdict(o: Outcome): Result<bool, Message>
  {
    match o.end
    case Completed => Ok(|o.errors| == 0)
    case Stopped => Ok(false)
    case Missing(title) => Err(NotFound(title))
  }

  /** A field's validators touch only that field: no key is added or removed, and a field the form
    * does not have leaves the data as it was. */
  lemma {:induction false} ChainFrame(vs: seq<Validator>, casts: Casts, title: string, name: string, data: map<string, Value>)
    ensures var d := Chain(vs, casts, title, name, data).data;
      && d.Keys == data.Keys
      && (forall k :: k in data && k != name ==> d[k] == data[k])
      && (name !in data ==> d == data)
    decreases |vs|
  {
    if vs != [] {
      var value := if name in data then data[name] else Empty;
      var out := Apply(vs[0], casts, title, value);
      if out.Ok? {
        ChainFrame(vs[1..], casts, title, name, if name in data then data[name := out.value] else data);
      }
    }
  }

  /** A field the form does not have is still validated, as the empty string, by each of its
    * validators: it passes exactly when every one of them accepts `''`, and otherwise the error
    * recorded is the first validator's that refuses it. */
  lemma {:induction false} ChainOnMissingField(vs: seq<Validator>, casts: Casts, title: string, name: string, data: map<string, Value>)
    requires name !in data
    ensures var step := Chain(vs, casts, title, name, data);
      && (step.error.None? <==> forall i :: 0 <= i < |vs| ==> Apply(vs[i], casts, title, Empty).Ok?)
      && (step.error.Some? ==> exists i :: 0 <= i < |vs| && Apply(vs[i], casts, title, Empty) == Err(step.error.value)
                                          && forall j :: 0 <= j < i ==> Apply(vs[j], casts, title, Empty).Ok?)
    decreases |vs|
  {
    if vs != [] {
      var out := Apply(vs[0], casts, title, Empty);
      if out.Ok? {
        ChainOnMissingField(vs[1..], casts, title, name, data);
        var step := Chain(vs[1..], casts, title, name, data);
        if step.error.Some? {
          var i :| 0 <= i < |vs[1..]| && Apply(vs[1..][i], casts, title, Empty) == Err(step.error.value)
                   && forall j :: 0 <= j < i ==> Apply(vs[1..][j], casts, title, Empty).Ok?;
          assert Apply(vs[i + 1], casts, title, Empty) == Err(step.error.value);
          assert forall j :: 0 <= j < i + 1 ==> Apply(vs[j], casts, title, Empty).Ok? by {
            forall j | 0 <= j < i + 1
              ensures Apply(vs[j], casts, title, Empty).Ok?
            {
              if j > 0 { assert vs[j] == vs[1..][j - 1]; }
            }
          }
        } else {
          forall i | 0 <= i < |vs|
            ensures Apply(vs[i], casts, title, Empty).Ok?
          {
            if i > 0 { assert vs[i] == vs[1..][i - 1]; }
          }
        }
      } else {
        assert Apply(vs[0], casts, title, Empty) == Err(Chain(vs, casts, title, name, data).error.value);
      }
    }
  }

  /** `validate` never adds or removes form fields, and leaves the fields that have no validators
    * as they were: `get_form_data` afterwards has the keys it was given. */
  lemma {:induction false} RunFrame(names: seq<string>, fields: map<string, Field>, strict: bool, casts: Casts,
                                    data: map<string, Value>, errors: seq<Message>)
    requires Registered(names, fields)
    ensures var o := Run(names, fields, strict, casts, data, errors);
      && o.data.Keys == data.Keys
      && (forall k :: k in data && k !in names ==> o.data[k] == data[k])
    decreases |names|
  {
    if names != [] {
      var f := fields[names[0]];
      if !(strict && names[0] !in data) {
        ChainFrame(f.validators, casts, f.title, names[0], data);
        var step := Chain(f.validators, casts, f.title, names[0], data);
        assert Registered(names[1..], fields);
        var errs := if step.error.None? then errors else errors + [step.error.value];
        RunFrame(names[1..], fields, strict, casts, step.data, errs);
      }
    }
  }

  /** At most one error per field is recorded, after the errors already there; a run stopped by a
    * `stop_on_error` field has recorded that field's error. */
  lemma {:induction false} RunErrors(names: seq<string>, fields: map<string, Field>, strict: bool, casts: Casts,
                                     data: map<string, Value>, errors: seq<Message>)
    requires Registered(names, fields)
    ensures var o := Run(names, fields, strict, casts, data, errors);
      && |errors| <= |o.errors| <= |errors| + |names|
      && o.errors[..|errors|] == errors
      && (o.end.Stopped? ==> |o.errors| > |errors|)
    decreases |names|
  {
    if names != [] {
      var f := fields[names[0]];
      if !(strict && names[0] !in data) {
        var step := Chain(f.validators, casts, f.title, names[0], data);
        assert Registered(names[1..], fields);
        if step.error.None? {
          RunErrors(names[1..], fields, strict, casts, step.data, errors);
        } else if !f.stopOnError {
          var errs := errors + [step.error.value];
          RunErrors(names[1..], fields, strict, casts, step.data, errs);
          var o := Run(names[1..], fields, strict, casts, step.data, errs);
          assert o.errors[..|errors|] == o.errors[..|errs|][..|errors|];
        }
      }
    }
  }

  /** `validate` returns true exactly when the error list is empty afterwards, whether it went
    * through every field or stopped early. */
  lemma {:induction false} VerdictMatchesErrors(names: seq<string>, fields: map<string, Field>, strict: bool, casts: Casts,
                                               data: map<string, Value>, errors: seq<Message>)
    requires Registered(names, fields)
    ensures var o := Run(names, fields, strict, casts, data, errors);
      Verdict(o).Ok? ==> (Verdict(o).value <==> |o.errors| == 0)
  {
    RunErrors(names, fields, strict, casts, data, errors);
  }

  /** Only strict mode raises, and only for a field the form does not have, with that field's
    * title; in strict mode a run through every field saw every field in the form. */
  lemma {:induction false} RunRaises(names: seq<string>, fields: map<string, Field>, strict: bool, casts: Casts,
                                     data: map<string, Value>, errors: seq<Message>)
    requires Registered(names, fields)
    ensures var o := Run(names, fields, strict, casts, data, errors);
      && (o.end.Missing? ==> strict && exists n :: n in names && n !in data && o.end.title == fields[n].title)
      && (strict && o.end.Completed? ==> forall n :: n in names ==> n in data)
    decreases |names|
  {
    if names != [] {
      var f := fields[names[0]];
      if !(strict && names[0] !in data) {
        ChainFrame(f.validators, casts, f.title, names[0], data);
        var step := Chain(f.validators, casts, f.title, names[0], data);
        assert Registered(names[1..], fields);
        var errs := if step.error.None? then errors else errors + [step.error.value];
        if step.error.None? || !f.stopOnError {
          RunRaises(names[1..], fields, strict, casts, step.data, errs);
          var o := Run(names[1..], fields, strict, casts, step.data, errs);
          if o.end.Missing? {
            var n :| n in names[1..] && n !in step.data && o.end.title == fields[n].title;
            assert n in names;
          }
        }
      }
    }
  }

  /** The stateful validator of validation.py. */
  class FormDataValidator {
    var names: seq<string>
    var fields: map<string, Field>
    var errors: seq<Message>
    const strict: bool
    var formData: map<string, Value>

    ghost predicate Valid()
      reads this
    {
      Ordered(Registry(names, fields))
    }

    /** `__init__`: no fields, no errors, and a copy of the form data. */
    constructor (formData: map<string, Value>, strict: bool)
      ensures Valid()
      ensures names == [] && fields == map[] && errors == []
      ensures this.strict == strict && this.formData == formData
    {
      names := [];
      fields := map[];
      errors := [];
      this.strict := strict;
      this.formData := formData;
    }

    /** `add(name, validator, title=…, stop_on_error=…)`: registers the validators of the spec in
      * order (a list is walked recursively) and reports false where the source raises
      * `ValidatorTypeError`, after what came before the offending item has been added. */
    method Add(name: string, spec: Spec, title: Option<string>, stop: bool) returns (ok: bool)
      requires Valid()
      modifies this
      ensures Valid()
      ensures ok == Flatten(spec).1
      ensures Registry(names, fields) ==
        AddAll(Registry(old(names), old(fields)), name, if title.Some? then title.value else name, stop, Flatten(spec).0)
      ensures errors == old(errors) && formData == old(formData)
      decreases spec
    {
      match spec
      case NotAValidator =>
        ok := false;
      case One(v) =>
        var resolved := if title.Some? then title.value else name;
        var r := AddOne(Registry(names, fields), name, resolved, stop, v);
        AddAllEffect(Registry(names, fields), name, resolved, stop, [v]);
        assert [v][1..] == [];
        names, fields := r.names, r.fields;
        ok := true;
      case Many(ss) =>
        ok := AddEach(name, ss, title, stop);
    }

    /** The loop of `add` over a list or tuple of validators; it ends at the first refused item. */
    method AddEach(name: string, ss: seq<Spec>, title: Option<string>, stop: bool) returns (ok: bool)
      requires Valid()
      modifies this
      ensures Valid()
      ensures ok == FlattenAll(ss).1
      ensures Registry(names, fields) ==
        AddAll(Registry(old(names), old(fields)), name, if title.Some? then title.value else name, stop, FlattenAll(ss).0)
      ensures errors == old(errors) && formData == old(formData)
      decreases ss
    {
      ghost var resolved := if title.Some? then title.value else name;
      ghost var start := Registry(names, fields);
      ghost var done: seq<Validator> := [];
      var i := 0;
      assert ss[0..] == ss;
      assert done + FlattenAll(ss).0 == FlattenAll(ss).0;
      while i < |ss|
        invariant 0 <= i <= |ss|
        invariant Valid() && errors == old(errors) && formData == old(formData)
        invariant Registry(names, fields) == AddAll(start, name, resolved, stop, done)
        invariant FlattenAll(ss).0 == done + FlattenAll(ss[i..]).0
        invariant FlattenAll(ss).1 == FlattenAll(ss[i..]).1
      {
        var good := Add(name, ss[i], title, stop);
        AddEachStep(ss, i, done, start, name, resolved, stop);
        if !good {
          ok := false;
          return;
        }
        done := done + Flatten(ss[i]).0;
        i := i + 1;
      }
      assert ss[i..] == [] && done + [] == done;
      ok := true;
    }

    /** One field's validators over the stored form data (the inner loop of `validate`). */
    method Check(name: string, field: Field, casts: Casts) returns (error: Option<Message>)
      modifies this`formData
      ensures Step(formData, error) == Chain(field.validators, casts, field.title, name, old(formData))
    {
      var vs := field.validators;
      error := None;
      var j := 0;
      while j < |vs|
        invariant 0 <= j <= |vs|
        invariant Chain(vs[j..], casts, field.title, name, formData) == Chain(vs, casts, field.title, name, old(formData))
      {
        var value := if name in formData then formData[name] else Empty;
        var out := Apply(vs[j], casts, field.title, value);
        if out.Err? {
          error := Some(out.error);
          return;
        }
        if name in formData {
          formData := formData[name := out.value];
        }
        assert vs[j..][1..] == vs[j + 1..];
        j := j + 1;
      }
    }

    /** `validate()`: runs every field's validators in the order the fields were added, records
      * the first error of each field, stops at a failing `stop_on_error` field, and in strict mode
      * raises for a field the form does not have. */
    method Validate(casts: Casts) returns (r: Result<bool, Message>)
      requires Valid()
      modifies this
      ensures Valid() && names == old(names) && fields == old(fields)
      ensures var o := Run(names, fields, strict, casts, old(formData), old(errors));
        formData == o.data && errors == o.errors && r == Verdict(o)
    {
      var k := 0;
      while k < |names|
        invariant 0 <= k <= |names|
        invariant Valid() && names == old(names) && fields == old(fields)
        invariant Registered(names[k..], fields)
        invariant Run(names[k..], fields, strict, casts, formData, errors) ==
                  Run(names, fields, strict, casts, old(formData), old(errors))
      {
        var name := names[k];
        var field := fields[name];
        assert names[k..][0] == name && names[k..][1..] == names[k + 1..];
        if strict && name !in formData {
          r := Err(NotFound(field.title));
          return;
        }
        var error := Check(name, field, casts);
        if error.Some? {
          errors := errors + [error.value];
          if field.stopOnError {
            r := Ok(false);
            return;
          }
        }
        k := k + 1;
      }
      r := Ok(IsValid());
    }

    /** `is_valid()`: no error has been recorded. */
    function IsValid(): (b: bool)
      reads this
      ensures b <==> errors == []
    {
      |errors| == 0
    }

    /** `get_form_data()`: the form data, with the values the validators stored. */
    function FormData(): map<string, Value>
      reads this
    {
      formData
    }
  }
}
