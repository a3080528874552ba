/** The form binder of `createForm`: a configuration (form name, field list,
    optional validator, unmount policy), the actions it dispatches to the
    store, the merge of validation errors into the decorated fields, and the
    per-render derivation of the `fields` map and the submit handler. */
module CreateForm {
  import opened JsValues

  /** The user's `validate` function, applied to the collected values; its
      result is the error map from field name to error descriptor. */
  type Validator = map<string, JsValue> -> map<string, JsValue>

  /** The static configuration passed to `createForm`. */
  datatype FormConfig = FormConfig(
    form: string,
    fields: seq<string>,
    validate: Option<Validator>,
    destroyOnUnmount: Option<bool>)

  /** One entry of the store's field definition list; only its name is read. */
  datatype FieldDef = FieldDef(name: string)

  /** The requests the binder dispatches to the store. */
  datatype Action =
    | Change(form: string, field: string, value: JsValue, touched: bool, valid: bool)
    | Touch(form: string, fields: seq<string>)
    | DefineField(form: string, field: string)
    | Destroy(form: string)

  /** The `setFieldValue` closure of one field; `set`, `onChange` and
      `events.onChange` all invoke it (see Form.SetFieldValue). */
  datatype Handler = SetFieldValueFor(key: string)

  /** The record `createField` builds for a configured field (`setter` is its `set`). */
  datatype Base = Base(value: JsValue, setter: Handler, onChange: Handler)
  {
    /** `get(defaultVal)`: the value if truthy, else the default if truthy,
        else the empty string. */
    function Get(defaultVal: JsValue): (r: JsValue)
      ensures Truthy(value) ==> r == value
      ensures !Truthy(value) && Truthy(defaultVal) ==> r == defaultVal
      ensures !Truthy(value) && !Truthy(defaultVal) ==> r == Empty
      ensures Truthy(r) || r == Empty
    {
      Or(Or(value, defaultVal), Empty)
    }
  }

  /** One entry of the decorated `fields` map: the createField part (absent
      for an entry that only errors or meta introduced), the merged-in
      `error`, and the merged-in store meta. */
  datatype FieldView = FieldView(base: Option<Base>, error: Option<JsValue>, meta: map<string, JsValue>)

  const NoView: FieldView := FieldView(None, None, map[])

  /** What `validateForm` returns. */
  datatype ValidationResult = ValidationResult(fields: map<string, FieldView>, hasError: bool)

  /** What one render hands to the wrapped component: the decorated fields,
      and what the `handleSubmit` closure captures (collected values, the
      validation verdict, the definition names it touches). */
  datatype RenderOutput = RenderOutput(
    fields: map<string, FieldView>,
    collected: map<string, JsValue>,
    hasError: bool,
    definitionNames: seq<string>)

  // ---------------------------------------------------------------------
  // Field handlers

  /** `typeof val === 'object' && val.target`: an object with a truthy `target`. */
  predicate IsChangeEvent(val: JsValue) {
    val.Obj? && Truthy(Prop(val, "target"))
  }

  /** The value `setFieldValue` dispatches for its argument: a change event
      contributes `target.value || ''`, anything else goes through as it is.
      `null` is excluded: reading `null.target` throws. */
  function ChangedValue(val: JsValue): (r: JsValue)
    requires !val.Null?
    ensures !IsChangeEvent(val) ==> r == val
    ensures IsChangeEvent(val) ==>
      var v := Prop(Prop(val, "target"), "value");
      (Truthy(v) ==> r == v) && (!Truthy(v) ==> r == Empty)
  {
    if IsChangeEvent(val) then Or(Prop(Prop(val, "target"), "value"), Empty) else val
  }

  // ---------------------------------------------------------------------
  // Decoration of the configured fields

  /** `formValues[key] || ''`. */
  function DecoratedValue(formValues: map<string, JsValue>, key: string): JsValue {
    Or(Lookup(formValues, key), Empty)
  }

  /** `createField(value, key)`: a one-entry object keyed by the field name,
      whose `set` and `onChange` are the one handler of that field. */
  function CreateField(value: JsValue, key: string): (r: map<string, FieldView>)
    ensures r.Keys == {key}
    ensures r[key].base.Some? && r[key].base.value.value == value
    ensures r[key].base.value.setter == r[key].base.value.onChange == SetFieldValueFor(key)
    ensures r[key].error.None? && r[key].meta == map[]
  {
    var h := SetFieldValueFor(key);
    map[key := FieldView(Some(Base(value, h, h)), None, map[])]
  }

  /** The entry decoration gives the field `key`: what `createField` builds
      for it from `formValues[key] || ''`. */
  function DecoratedField(formValues: map<string, JsValue>, key: string): FieldView {
    CreateField(DecoratedValue(formValues, key), key)[key]
  }

  /** The fields map after `decoratedFields = _.assign({}, decoratedFields, field)`
      has run over the created fields, in configured order. */
  function Decorate(fields: seq<string>, formValues: map<string, JsValue>): map<string, FieldView>
    decreases |fields|
  {
    if fields == [] then map[]
    else
      var last := fields[|fields| - 1];
      Decorate(fields[..|fields| - 1], formValues) + CreateField(DecoratedValue(formValues, last), last)
  }

  /** Decoration yields exactly the configured names as keys. */
  lemma {:induction false} DecorateKeys(fields: seq<string>, formValues: map<string, JsValue>)
    ensures Decorate(fields, formValues).Keys == set k | k in fields
  {
    if fields != [] {
      var init := fields[..|fields| - 1];
      var last := fields[|fields| - 1];
      DecorateKeys(init, formValues);
      assert fields == init + [last];
      assert (set k | k in fields) == (set k | k in init) + {last};
    }
  }

  /** Each configured field's entry is its own decoration, whatever the
      order or repetitions of the list. */
  lemma {:induction false} DecorateAt(fields: seq<string>, formValues: map<string, JsValue>, k: string)
    requires k in fields
    ensures k in Decorate(fields, formValues) && Decorate(fields, formValues)[k] == DecoratedField(formValues, k)
  {
    var init := fields[..|fields| - 1];
    var last := fields[|fields| - 1];
    if k != last {
      assert fields == init + [last];
      DecorateAt(init, formValues, k);
    }
  }

  /** Decoration keeps every configured field and gives each its own entry. */
  lemma DecorateSpec(fields: seq<string>, formValues: map<string, JsValue>)
    ensures Decorate(fields, formValues).Keys == set k | k in fields
    ensures forall k :: k in fields ==> Decorate(fields, formValues)[k] == DecoratedField(formValues, k)
  {
    DecorateKeys(fields, formValues);
    forall k | k in fields
      ensures Decorate(fields, formValues)[k] == DecoratedField(formValues, k)
    {
      DecorateAt(fields, formValues, k);
    }
  }

  // ---------------------------------------------------------------------
  // Collected values

  /** The field names of the store's definition list, in order. */
  function DefinitionNames(defs: seq<FieldDef>): (names: seq<string>)
    ensures |names| == |defs|
    ensures forall i :: 0 <= i < |defs| ==> names[i] == defs[i].name
  {
    seq(|defs|, i requires 0 <= i < |defs| => defs[i].name)
  }

  /** `collectedValues[def.name] = formValues[def.name]` over the definition list. */
  function Collect(defs: seq<FieldDef>, formValues: map<string, JsValue>): map<string, JsValue>
    decreases |defs|
  {
    if defs == [] then map[]
    else
      var key := defs[|defs| - 1].name;
      Collect(defs[..|defs| - 1], formValues)[key := Lookup(formValues, key)]
  }

  /** The collected values hold exactly the defined names, each with its raw
      store value (`undefined` where the store has none). */
  lemma {:induction false} CollectSpec(defs: seq<FieldDef>, formValues: map<string, JsValue>)
    ensures Collect(defs, formValues).Keys == set d | d in defs :: d.name
    ensures forall k :: k in Collect(defs, formValues) ==> Collect(defs, formValues)[k] == Lookup(formValues, k)
  {
    if defs != [] {
      var init := defs[..|defs| - 1];
      var last := defs[|defs| - 1];
      CollectSpec(init, formValues);
      assert defs == init + [last];
      assert (set d | d in defs :: d.name) == (set d | d in init :: d.name) + {last.name};
    }
  }

  // ---------------------------------------------------------------------
  // Validation merge

  /** `_.merge({}, fields, _.mapValues(errors, val => ({error: val})))`. */
  function MergeErrors(fields: map<string, FieldView>, errors: map<string, JsValue>): map<string, FieldView> {
    map k | k in fields.Keys + errors.Keys ::
      if k in errors then (if k in fields then fields[k] else NoView).(error := Some(errors[k]))
      else fields[k]
  }

  /** `validateForm(fields, formValues, validateFn)`: without a validator, or
      when it returns an empty error map, the fields come back unchanged and
      without error; otherwise every error key gets its error merged in,
      every other field keeps its entry, and the result reports an error. */
  function ValidateForm(fields: map<string, FieldView>, formValues: map<string, JsValue>,
                        validateFn: Option<Validator>): (r: ValidationResult)
    ensures r.hasError <==> validateFn.Some? && validateFn.value(formValues) != map[]
    ensures !r.hasError ==> r.fields == fields
    ensures r.hasError ==>
      var errors := validateFn.value(formValues);
      && r.fields.Keys == fields.Keys + errors.Keys
      && (forall k :: k in errors ==> r.fields[k].error == Some(errors[k]))
      && (forall k :: k in errors && k in fields ==>
            r.fields[k].base == fields[k].base && r.fields[k].meta == fields[k].meta)
      && (forall k :: k in errors && k !in fields ==>
            r.fields[k].base.None? && r.fields[k].meta == map[])
      && (forall k :: k in fields && k !in errors ==> r.fields[k] == fields[k])
  {
    if validateFn.Some? && validateFn.value(formValues) != map[] then
      ValidationResult(MergeErrors(fields, validateFn.value(formValues)), true)
    else
      ValidationResult(fields, false)
  }

  // ---------------------------------------------------------------------
  // Meta overlay and the render derivation

  /** `_.merge({}, fields, formMeta)`: each field's store meta is merged into
      its entry, creating the entry when the field was not decorated. */
  function OverlayMeta(fields: map<string, FieldView>, formMeta: map<string, map<string, JsValue>>): (r: map<string, FieldView>)
    ensures r.Keys == fields.Keys + formMeta.Keys
    ensures forall k :: k in formMeta ==>
      var before := if k in fields then fields[k] else NoView;
      r[k] == before.(meta := before.meta + formMeta[k])
    ensures forall k :: k in fields && k !in formMeta ==> r[k] == fields[k]
  {
    map k | k in fields.Keys + formMeta.Keys ::
      if k in formMeta then
        var before := if k in fields then fields[k] else NoView;
        before.(meta := before.meta + formMeta[k])
      else fields[k]
  }

  /** The error keys the configured validator reports on `collected`. */
  function ErrorKeys(config: FormConfig, collected: map<string, JsValue>): set<string> {
    if config.validate.Some? then config.validate.value(collected).Keys else {}
  }

  /** Everything `render` derives from the configuration and the store's
      current values, definition list and meta. */
  function Derive(config: FormConfig, formValues: map<string, JsValue>,
                  formDefinition: seq<FieldDef>, formMeta: map<string, map<string, JsValue>>): RenderOutput
  {
    var decorated := Decorate(config.fields, formValues);
    var collected := Collect(formDefinition, formValues);
    var v := ValidateForm(decorated, collected, config.validate);
    RenderOutput(OverlayMeta(v.fields, formMeta), collected, v.hasError, DefinitionNames(formDefinition))
  }

  /** Freshly decorated entries carry neither an error nor meta. */
  lemma DecoratedEntriesPlain(fields: seq<string>, formValues: map<string, JsValue>)
    ensures forall k :: k in Decorate(fields, formValues) ==>
      Decorate(fields, formValues)[k].error.None? && Decorate(fields, formValues)[k].meta == map[]
  {
    DecorateSpec(fields, formValues);
  }

  /** Merging errors never introduces meta. */
  lemma ValidatedMetaEmpty(fields: map<string, FieldView>, formValues: map<string, JsValue>, validateFn: Option<Validator>)
    requires forall k :: k in fields ==> fields[k].meta == map[]
    ensures var r := ValidateForm(fields, formValues, validateFn);
      forall k :: k in r.fields ==> r.fields[k].meta == map[]
  {
    var r := ValidateForm(fields, formValues, validateFn);
    if r.hasError {
      var errors := validateFn.value(formValues);
      forall k | k in r.fields
        ensures r.fields[k].meta == map[]
      {
        if k in errors && k in fields {
          assert r.fields[k].meta == fields[k].meta;
        }
      }
    }
  }

  /** No configured field is dropped: the rendered keys are the configured
      fields, the error keys and the meta keys, and nothing else. */
  lemma RenderFieldCoverage(config: FormConfig, formValues: map<string, JsValue>,
                            formDefinition: seq<FieldDef>, formMeta: map<string, map<string, JsValue>>)
    ensures var out := Derive(config, formValues, formDefinition, formMeta);
      out.fields.Keys == (set f | f in config.fields) + ErrorKeys(config, out.collected) + formMeta.Keys
  {
    DecorateSpec(config.fields, formValues);
  }

  /** Every configured field shows `formValues[f] || ''` as its value and
      one handler as both `set` and `onChange`. */
  lemma RenderFieldValue(config: FormConfig, formValues: map<string, JsValue>,
                         formDefinition: seq<FieldDef>, formMeta: map<string, map<string, JsValue>>, f: string)
    requires f in config.fields
    ensures var out := Derive(config, formValues, formDefinition, formMeta);
      && f in out.fields
      && out.fields[f].base == Some(Base(Or(Lookup(formValues, f), Empty), SetFieldValueFor(f), SetFieldValueFor(f)))
  {
    DecorateSpec(config.fields, formValues);
  }

  /** `fields[f].get(d)` on a configured field is the store value if truthy,
      else `d` if truthy, else the empty string. */
  lemma RenderFieldGet(config: FormConfig, formValues: map<string, JsValue>,
                       formDefinition: seq<FieldDef>, formMeta: map<string, map<string, JsValue>>,
                       f: string, d: JsValue)
    requires f in config.fields
    ensures var out := Derive(config, formValues, formDefinition, formMeta);
      var stored := Lookup(formValues, f);
      && f in out.fields && out.fields[f].base.Some?
      && out.fields[f].base.value.Get(d) == (if Truthy(stored) then stored else if Truthy(d) then d else Empty)
  {
    RenderFieldValue(config, formValues, formDefinition, formMeta, f);
  }

  /** The collected values hold exactly the names of the store's definition
      list (not the configured list), with the raw store values; the submit
      handler touches those names in definition order. */
  lemma RenderCollected(config: FormConfig, formValues: map<string, JsValue>,
                        formDefinition: seq<FieldDef>, formMeta: map<string, map<string, JsValue>>)
    ensures var out := Derive(config, formValues, formDefinition, formMeta);
      && out.collected.Keys == (set d | d in formDefinition :: d.name)
      && (forall k :: k in out.collected ==> out.collected[k] == Lookup(formValues, k))
      && out.definitionNames == DefinitionNames(formDefinition)
  {
    CollectSpec(formDefinition, formValues);
  }

  /** The render reports an error exactly when the validator returns a
      non-empty map on the collected values; then each error key carries its
      error, and otherwise no entry carries one. */
  lemma RenderErrors(config: FormConfig, formValues: map<string, JsValue>,
                     formDefinition: seq<FieldDef>, formMeta: map<string, map<string, JsValue>>)
    ensures var out := Derive(config, formValues, formDefinition, formMeta);
      && out.collected == Collect(formDefinition, formValues)
      && (out.hasError <==> config.validate.Some? && config.validate.value(out.collected) != map[])
      && (out.hasError ==> forall k :: k in config.validate.value(out.collected) ==>
            k in out.fields && out.fields[k].error == Some(config.validate.value(out.collected)[k]))
      && (!out.hasError ==> forall k :: k in out.fields ==> out.fields[k].error.None?)
  {
    var decorated := Decorate(config.fields, formValues);
    var collected := Collect(formDefinition, formValues);
    var v := ValidateForm(decorated, collected, config.validate);
    var fields := OverlayMeta(v.fields, formMeta);
    DecorateSpec(config.fields, formValues);
    if v.hasError {
      var errors := config.validate.value(collected);
      forall k | k in errors
        ensures k in fields && fields[k].error == Some(errors[k])
      {
        assert v.fields[k].error == Some(errors[k]);
      }
    } else {
      forall k | k in fields
        ensures fields[k].error.None?
      {
        assert k in decorated || k in formMeta;
      }
    }
  }

  /** Each field named in the store meta carries that meta, on top of
      whatever decoration and validation produced for it. */
  lemma RenderMeta(config: FormConfig, formValues: map<string, JsValue>,
                   formDefinition: seq<FieldDef>, formMeta: map<string, map<string, JsValue>>)
    ensures var out := Derive(config, formValues, formDefinition, formMeta);
      forall k :: k in formMeta ==> k in out.fields && out.fields[k].meta == formMeta[k]
  {
    var decorated := Decorate(config.fields, formValues);
    var collected := Collect(formDefinition, formValues);
    DecoratedEntriesPlain(config.fields, formValues);
    ValidatedMetaEmpty(decorated, collected, config.validate);
  }

  // ---------------------------------------------------------------------
  // The store and the component

  /** The store's dispatch surface, seen as the append-only log of the
      requests it has received. */
  class Store {
    var log: seq<Action>

    constructor ()
      ensures log == []
    {
      log := [];
    }

    method Dispatch(a: Action)
      modifies this
      ensures log == old(log) + [a]
    {
      log := log + [a];
    }
  }

  /** The component class `createForm(config)` produces, bound to a store. */
  class Form {
    const config: FormConfig
    const store: Store

    constructor (config: FormConfig, store: Store)
      ensures this.config == config && this.store == store
    {
      this.config := config;
      this.store := store;
    }

    /** Calling a field's `set` / `onChange` handler `h`: dispatches one
        change request for its field with the normalised value, untouched
        and not valid. */
    method SetFieldValue(h: Handler, val: JsValue)
      requires !val.Null?
      modifies store
      ensures store.log == old(store.log) + [Change(config.form, h.key, ChangedValue(val), false, false)]
    {
      var newVal := val;
      if val.Obj? && Truthy(Prop(val, "target")) {
        newVal := Or(Prop(Prop(val, "target"), "value"), Empty);
      }
      store.Dispatch(Change(config.form, h.key, newVal, false, false));
    }

    /** `componentDidMount`: one field definition per configured field, in
        configured order, and nothing else. */
    method ComponentDidMount()
      modifies store
      ensures |store.log| == |old(store.log)| + |config.fields|
      ensures store.log[..|old(store.log)|] == old(store.log)
      ensures forall i :: 0 <= i < |config.fields| ==>
        store.log[|old(store.log)| + i] == DefineField(config.form, config.fields[i])
    {
      var fields := config.fields;
      for i := 0 to |fields|
        invariant |store.log| == |old(store.log)| + i
        invariant store.log[..|old(store.log)|] == old(store.log)
        invariant forall j :: 0 <= j < i ==> store.log[|old(store.log)| + j] == DefineField(config.form, fields[j])
      {
        store.Dispatch(DefineField(config.form, fields[i]));
      }
    }

    /** `componentWillUnmount`: destroys the form unless `destroyOnUnmount`
        is explicitly false. */
    method ComponentWillUnmount()
      modifies store
      ensures config.destroyOnUnmount != Some(false) ==> store.log == old(store.log) + [Destroy(config.form)]
      ensures config.destroyOnUnmount == Some(false) ==> store.log == old(store.log)
    {
      var d := config.destroyOnUnmount;
      if d.None? || (d.Some? && d.value == true) {
        store.Dispatch(Destroy(config.form));
      }
    }

    /** The first half of `render`: creates each configured field and
        assigns it into `decoratedFields`, in configured order. */
    method DecorateFields(formValues: map<string, JsValue>) returns (decoratedFields: map<string, FieldView>)
      ensures decoratedFields == Decorate(config.fields, formValues)
    {
      var fields := config.fields;
      var fieldsObjArr := seq(|fields|, i requires 0 <= i < |fields| =>
        CreateField(DecoratedValue(formValues, fields[i]), fields[i]));

      decoratedFields := map[];
      var i := 0;
      while i < |fieldsObjArr|
        invariant 0 <= i <= |fields|
        invariant decoratedFields == Decorate(fields[..i], formValues)
      {
        assert Decorate(fields[..i + 1], formValues) == decoratedFields + fieldsObjArr[i] by {
          var prefix := fields[..i + 1];
          assert prefix[..i] == fields[..i] && prefix[i] == fields[i];
          assert fieldsObjArr[i] == CreateField(DecoratedValue(formValues, fields[i]), fields[i]);
        }
        decoratedFields := decoratedFields + fieldsObjArr[i];
        i := i + 1;
      }
      assert fields[..|fields|] == fields;
    }

    /** The second half of `render`'s data pass: copies the raw store value
        of every name in the store's definition list into `collectedValues`. */
    method CollectValues(formValues: map<string, JsValue>, formDefinition: seq<FieldDef>)
      returns (collectedValues: map<string, JsValue>)
      ensures collectedValues == Collect(formDefinition, formValues)
    {
      collectedValues := map[];
      var j := 0;
      while j < |formDefinition|
        invariant 0 <= j <= |formDefinition|
        invariant collectedValues == Collect(formDefinition[..j], formValues)
      {
        var key := formDefinition[j].name;
        assert Collect(formDefinition[..j + 1], formValues) == collectedValues[key := Lookup(formValues, key)] by {
          var prefix := formDefinition[..j + 1];
          assert prefix[..j] == formDefinition[..j] && prefix[j].name == key;
        }
        collectedValues := collectedValues[key := Lookup(formValues, key)];
        j := j + 1;
      }
      assert formDefinition[..|formDefinition|] == formDefinition;
    }

    /** `render`, without the React element: decorates the configured
        fields, collects values over the store's definition list, validates,
        and overlays the store meta. */
    method Render(formValues: map<string, JsValue>, formDefinition: seq<FieldDef>,
                  formMeta: map<string, map<string, JsValue>>) returns (out: RenderOutput)
      ensures out == Derive(config, formValues, formDefinition, formMeta)
    {
      var decoratedFields := DecorateFields(formValues);
      var collectedValues := CollectValues(formValues, formDefinition);
      var v := ValidateForm(decoratedFields, collectedValues, config.validate);
      decoratedFields := v.fields;
      decoratedFields := OverlayMeta(decoratedFields, formMeta);
      out := RenderOutput(decoratedFields, collectedValues, v.hasError, DefinitionNames(formDefinition));
    }

    /** The handler `handleSubmit(fn)` returns, invoked once for the render
        `out`: always touches the defined fields, and hands the collected
        values to `fn` (the result) exactly when that render found no error. */
    method HandleSubmit(out: RenderOutput) returns (handlerCalledWith: Option<map<string, JsValue>>)
      modifies store
      ensures store.log == old(store.log) + [Touch(config.form, out.definitionNames)]
      ensures handlerCalledWith.Some? <==> !out.hasError
      ensures handlerCalledWith.Some? ==> handlerCalledWith.value == out.collected
    {
      store.Dispatch(Touch(config.form, out.definitionNames));
      handlerCalledWith := None;
      if !out.hasError {
        handlerCalledWith := Some(out.collected);
      }
    }
  }
}
