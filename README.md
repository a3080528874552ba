# createForm: a Dafny model of the form binder

`createForm(config)` wraps a presentation component so that it reads one form's
state from a Redux store and dispatches changes to it. The configuration names
the form, lists its fields, and may give a `validate` function and a
`destroyOnUnmount` flag. Without React and Redux, the component does the
following:

- **Mount.** It registers every configured field with the store (`defineField`).
- **Unmount.** It destroys the form's state unless `destroyOnUnmount` is `false`.
- **Render.** It builds a decorated `fields` map. Each configured field gets a
  value, a `get(default)` accessor and one shared `set`/`onChange` handler.
  It collects the current values over the store's field *definition* list and
  runs the validator on them. It merges each error into its field as
  `{error}`, and then merges the store's per-field meta on top.
- **Submit.** `handleSubmit(fn)` always touches every defined field. It calls
  `fn` with the collected values only when the render found no error.

The model has three files:

- `js_values.dfy`, module `JsValues`. This is the small part of JavaScript
  that the binder relies on: a `JsValue` datatype, truthiness, `a || b`,
  property access and dictionary lookup.
- `create_form.dfy`, module `CreateForm`. This is the binder itself.
  - The configuration, the store actions (`Change | Touch | DefineField | Destroy`)
    and the decorated field entry are datatypes. A `FieldView` is the
    createField part, an optional `error` and a meta sub-map.
  - `validateForm`, `get` and the merges are functions.
  - The store is a class holding an append-only action log.
  - The component is a class `Form`. Its methods `ComponentDidMount`,
    `ComponentWillUnmount`, `SetFieldValue`, `Render` and `HandleSubmit`
    append to the log or return the render's output.
  - `Render` runs the same two loops as the source. Each loop is its own
    method: `DecorateFields` and `CollectValues`. `Render` is proved equal to
    the specification function `Derive`. The lemmas `Render*` state what the
    source promises about `Derive`.
- `login_scenario.dfy`, module `LoginScenario`. This is a client that mounts,
  renders and submits a login form. Its proofs use the definitions and
  contracts of `CreateForm`.

In these places the code's behaviour is easy to misread; the model follows the code:

- A non-event argument to `set` is dispatched unchanged. A falsy plain value is
  not turned into `''`; only `target.value` of an event is normalised
  (src/createForm.tsx:65-68).
- A field's value is `formValues[key] || ''`. So `0` and `false` also become
  `''`, not only a missing value (src/createForm.tsx:105).
- The validator's result is "empty" when it has no keys (`_.isEmpty`).
  A map whose every error is falsy still counts as an error
  (src/createForm.tsx:38).
- The collected values come from the store's definition list, not from the
  configured list. The model keeps this divergence (src/createForm.tsx:113-117).

## Model

| member | source | states |
|---|---|---|
| CreateForm.Base.Get | src/createForm.tsx:78 | `get(d)` is the value if truthy, else `d` if truthy, else `''`; the result is always truthy or `''` |
| CreateForm.ChangedValue | src/createForm.tsx:64-68 | an object with a truthy `target` yields `target.value` if truthy, else `''`; any other non-null argument passes through unchanged |
| CreateForm.Form.SetFieldValue | src/createForm.tsx:64-81 | one call of a field's `set`/`onChange` handler `h` appends exactly `Change(form, h.key, ChangedValue(val), false, false)` to the log and nothing else |
| CreateForm.CreateField | src/createForm.tsx:61-85 | `createField(value, key)` is one entry keyed by `key`, holding the given value, one handler of that key as both `set` and `onChange`, no error and no meta |
| CreateForm.DecorateKeys | src/createForm.tsx:104-111 | the assign loop over the created fields yields exactly the configured names as keys |
| CreateForm.DecorateAt | src/createForm.tsx:104-111 | each configured field's entry holds value `formValues[f] \|\| ''` and its own handler as `set` and `onChange`, whatever the order or repetitions of the list |
| CreateForm.DecorateSpec | src/createForm.tsx:104-111 | the two facts above for all configured fields at once |
| CreateForm.Form.DecorateFields | src/createForm.tsx:104-111 | the map-then-assign loop computes exactly the decoration `Decorate` of the configured list |
| CreateForm.Form.CollectValues | src/createForm.tsx:113-117 | the loop over the store's definition list computes exactly `Collect`, whose keys and values `CollectSpec` states |
| CreateForm.CollectSpec | src/createForm.tsx:113-117 | the collected values have exactly the definition names as keys, each holding the raw store value (`undefined` when absent) |
| CreateForm.ValidateForm | src/createForm.tsx:34-53 | `hasError` holds iff a validator is given and returns a non-empty map; without an error the fields come back unchanged; with one the keys are fields ∪ error keys, each error key carries `error == errors[k]` over its unchanged base and meta, and fields not named keep their entries |
| CreateForm.OverlayMeta | src/createForm.tsx:121 | keys are fields ∪ meta keys; each meta key's entry gets the store meta merged over its own, keeping base and error; other entries are unchanged |
| CreateForm.RenderFieldCoverage | src/createForm.tsx:104-121 | the rendered keys are exactly configured fields ∪ validator error keys ∪ meta keys, so no configured field is dropped |
| CreateForm.RenderFieldValue | src/createForm.tsx:104-107 | every configured field renders `value == formValues[f] \|\| ''`, with one handler serving as both `set` and `onChange` |
| CreateForm.RenderFieldGet | src/createForm.tsx:78 | on a rendered configured field, `get(d)` is the stored value if truthy, else `d` if truthy, else `''` |
| CreateForm.RenderCollected | src/createForm.tsx:113-125 | the collected values have exactly the store definition's names as keys, with raw store values; submit touches those names in definition order |
| CreateForm.RenderErrors | src/createForm.tsx:119-120 | the render reports an error iff the validator returns a non-empty map on the collected values; then each error key carries its error; otherwise no entry carries one |
| CreateForm.RenderMeta | src/createForm.tsx:121 | every field named in the store meta renders exactly that meta |
| CreateForm.Form.ComponentDidMount | src/createForm.tsx:87-92 | appends exactly one `DefineField(form, f)` per configured field, in configured order, and nothing else |
| CreateForm.Form.ComponentWillUnmount | src/createForm.tsx:94-98 | appends exactly one `Destroy(form)` when `destroyOnUnmount` is unset or `true`; appends nothing when it is `false` |
| CreateForm.Form.Render | src/createForm.tsx:100-121 | decorating, collecting over the definition list, validating and overlaying the meta compute exactly the derivation `Derive` that the `Render*` lemmas describe |
| CreateForm.DefinitionNames | src/createForm.tsx:125 | `formDefinition.map(def => def.name)`: one name per definition, the i-th name being the i-th definition's name |
| CreateForm.Form.HandleSubmit | src/createForm.tsx:123-130 | each submit appends exactly `Touch(form, definition names)`; the user handler is called, with the collected values, iff the render found no error |

## Left out

- React's component machinery, `createElement` and the pass-through of
  `this.props` (src/createForm.tsx:27-32, 132-135) are UI rendering and are not
  modelled. The render's output is the `fields` map together with what
  `handleSubmit` captures.
- `connect`, the store selectors and the action creators
  (src/createForm.tsx:139-149) are not part of this model. The selectors'
  results are the parameters of `Render`. The action creators are the
  `Action` constructors, and dispatch is appending to `Store.log`.
- The user's `validate` function is modelled as a total function from
  collected values to an error map. A validator that throws, or that returns
  something other than a plain object, is not modelled.
- The user's submit handler is external code. `HandleSubmit` returns the
  argument it would be called with, or `None` when it is not called.
- Lodash's general recursive `_.merge` is modelled only for the shapes used
  here. A field entry is a record of the createField part, an optional
  `error` and a meta sub-map. A meta key named `value`, `get`, `set`,
  `onChange`, `events` or `error` would overwrite that part of the entry in
  JavaScript, but the model keeps the meta in its own sub-map.
- ChangedValue: the argument `null` is excluded by a precondition, because
  reading `null.target` throws in the source.
- JavaScript numbers are integers here. NaN and fractions are not modelled,
  and neither are arguments of type `function`.
- The `events` sub-object (src/createForm.tsx:72-74, 82) holds the same
  handler as `set` and `onChange`. It is not a separate field of `Base`.
- With no configured fields, the source's `decoratedFields` starts as
  `undefined`. The model starts from the empty map. The rendered result is
  the same, because the final `_.merge({}, ...)` turns `undefined` into `{}`.
