/** The provider component that owns the shared form state: one slot of saved
    form values per storage key, and one schema per schema key. Each of its
    methods is modelled as a pure function from state to state, applied at
    once (React's batching of `setState` is not modelled). */
module DynamicFormProvider {
  import opened Wrappers
  import opened JsValues

  /** A field template component. The four built-ins ship with the module;
      `Supplied` is a component the application passes in, identified by an
      opaque reference. */
  datatype Component = TextInput | DatePicker | CheckBox | RadioGroup | Supplied(ref: nat)

  /** The provider's props. `templates` is `None` when the prop is absent. */
  datatype Props = Props(
    formats: JsValue,
    schemas: map<string, JsValue>,
    templates: Option<map<string, Component>>,
    types: JsValue)

  datatype State = State(formValues: map<string, JsValue>, schemas: map<string, JsValue>)

  /** The context value `render` hands to the consumers (the two callbacks
      are the transitions below). */
  datatype Context = Context(
    formats: JsValue,
    schemas: map<string, JsValue>,
    templates: map<string, Component>,
    types: JsValue,
    formValues: map<string, JsValue>)

  function Lookup<V>(m: map<string, V>, k: string): Option<V>
  {
    if k in m then Some(m[k]) else None
  }

  /** The state the constructor builds: no saved form values, the schemas
      taken from the props. */
  function Init(props: Props): (s: State)
    ensures forall k :: Lookup(s.formValues, k) == None
    ensures forall k :: Lookup(s.schemas, k) == Lookup(props.schemas, k)
  {
    State(map[], props.schemas)
  }

  /** `setFormValues(key, values)`: a shallow copy of the saved values with
      `key` bound to `values`. */
  function SetFormValues(s: State, key: string, values: JsValue): (s': State)
    ensures Lookup(s'.formValues, key) == Some(values)
    ensures forall k :: k != key ==> Lookup(s'.formValues, k) == Lookup(s.formValues, k)
    ensures s'.schemas == s.schemas
  {
    s.(formValues := s.formValues[key := values])
  }

  /** `updateSchema(key, currentSchema)`: the schemas go through a JSON round
      trip, then `key` is bound to `currentSchema` as given. */
  function UpdateSchema(s: State, key: string, currentSchema: JsValue): (s': State)
    ensures Lookup(s'.schemas, key) == Some(currentSchema)
    ensures forall k :: k != key && k in s.schemas && s.schemas[k] != Undefined ==>
              Lookup(s'.schemas, k) == Some(JsonCopy(s.schemas[k]))
    ensures forall k :: k != key && (k !in s.schemas || s.schemas[k] == Undefined) ==>
              Lookup(s'.schemas, k) == None
    ensures s'.formValues == s.formValues
  {
    var copy := JsonCopy(Obj(s.schemas)).fields;
    s.(schemas := copy[key := currentSchema])
  }

  /** Every schema in the state is JSON data. */
  predicate SchemasAreJson(s: State)
  {
    forall k :: k in s.schemas ==> IsJson(s.schemas[k])
  }

  /** On JSON schemas the deep copy is invisible: `updateSchema` binds `key`
      and leaves every other schema exactly as it was. */
  lemma UpdateSchemaFrame(s: State, key: string, currentSchema: JsValue)
    requires SchemasAreJson(s)
    ensures forall k :: k != key ==>
              Lookup(UpdateSchema(s, key, currentSchema).schemas, k) == Lookup(s.schemas, k)
    ensures IsJson(currentSchema) ==> SchemasAreJson(UpdateSchema(s, key, currentSchema))
  {
    forall k | k in s.schemas {
      JsonCopyIdentity(s.schemas[k]);
    }
  }

  /** The built-in templates, keyed by component name. */
  function BuiltInTemplates(): map<string, Component>
  {
    map["TextInput" := TextInput, "DatePicker" := DatePicker,
        "CheckBox" := CheckBox, "RadioGroup" := RadioGroup]
  }

  /** The template table `{ TextInput, DatePicker, CheckBox, RadioGroup,
      ...templates }`: the user's entries are spread last, so they win;
      spreading an absent prop adds nothing. */
  function MergeTemplates(templates: Option<map<string, Component>>): (table: map<string, Component>)
    ensures forall k :: k in BuiltInTemplates() ==>
              Lookup(table, k) ==
                (if templates.Some? && k in templates.value then Some(templates.value[k])
                 else Some(BuiltInTemplates()[k]))
    ensures templates.Some? ==> forall k :: k in templates.value ==> Lookup(table, k) == Some(templates.value[k])
    ensures forall k :: k in table ==> k in BuiltInTemplates() || (templates.Some? && k in templates.value)
  {
    var user := if templates.Some? then templates.value else map[];
    BuiltInTemplates() + user
  }

  /** The context `render` publishes: the props and state passed through, and
      the merged template table. */
  function Render(props: Props, s: State): Context
  {
    Context(props.formats, s.schemas, MergeTemplates(props.templates), props.types, s.formValues)
  }

  /** A call of one of the two callbacks the provider publishes. */
  datatype Action =
    | SetValues(key: string, values: JsValue)
    | SetSchema(key: string, schema: JsValue)

  function Apply(s: State, a: Action): State
  {
    match a
    case SetValues(k, v) => SetFormValues(s, k, v)
    case SetSchema(k, v) => UpdateSchema(s, k, v)
  }

  /** The state after the calls in `actions`, in order. */
  function Run(s: State, actions: seq<Action>): State
    decreases |actions|
  {
    if actions == [] then s
    else Apply(Run(s, actions[..|actions| - 1]), actions[|actions| - 1])
  }

  /** The values of the last `setFormValues` call for `k` in `actions`. */
  function LastValues(actions: seq<Action>, k: string): Option<JsValue>
    decreases |actions|
  {
    if actions == [] then None
    else
      var a := actions[|actions| - 1];
      if a.SetValues? && a.key == k then Some(a.values)
      else LastValues(actions[..|actions| - 1], k)
  }

  /** The schema of the last `updateSchema` call for `k` in `actions`. */
  function LastSchema(actions: seq<Action>, k: string): Option<JsValue>
    decreases |actions|
  {
    if actions == [] then None
    else
      var a := actions[|actions| - 1];
      if a.SetSchema? && a.key == k then Some(a.schema)
      else LastSchema(actions[..|actions| - 1], k)
  }

  /** After any sequence of calls, the saved values under a storage key are
      those of the last `setFormValues` for that key, or what was there
      before; `updateSchema` calls never disturb them. */
  lemma {:induction false} RunFormValues(s: State, actions: seq<Action>, k: string)
    ensures Lookup(Run(s, actions).formValues, k) ==
              (if LastValues(actions, k).Some? then LastValues(actions, k) else Lookup(s.formValues, k))
    decreases |actions|
  {
    if actions != [] {
      RunFormValues(s, actions[..|actions| - 1], k);
    }
  }

  /** While every schema involved is JSON data, the schema under a key after
      any sequence of calls is the one the last `updateSchema` for that key
      installed, or the one there before; `setFormValues` never disturbs it. */
  lemma {:induction false} RunSchemas(s: State, actions: seq<Action>, k: string)
    requires SchemasAreJson(s)
    requires forall i :: 0 <= i < |actions| && actions[i].SetSchema? ==> IsJson(actions[i].schema)
    ensures SchemasAreJson(Run(s, actions))
    ensures Lookup(Run(s, actions).schemas, k) ==
              (if LastSchema(actions, k).Some? then LastSchema(actions, k) else Lookup(s.schemas, k))
    decreases |actions|
  {
    if actions != [] {
      var prefix := actions[..|actions| - 1];
      RunSchemas(s, prefix, k);
      var a := actions[|actions| - 1];
      if a.SetSchema? {
        UpdateSchemaFrame(Run(s, prefix), a.key, a.schema);
      }
    }
  }

  /** What consumers see after a call: the values or schema just stored, every
      other key as before, and a template table that no call changes. */
  lemma RenderAfterAction(props: Props, s: State, a: Action)
    requires SchemasAreJson(s)
    ensures Render(props, Apply(s, a)).templates == Render(props, s).templates
    ensures a.SetValues? ==>
              && Lookup(Render(props, Apply(s, a)).formValues, a.key) == Some(a.values)
              && Render(props, Apply(s, a)).schemas == Render(props, s).schemas
    ensures a.SetSchema? ==>
              && Lookup(Render(props, Apply(s, a)).schemas, a.key) == Some(a.schema)
              && Render(props, Apply(s, a)).formValues == Render(props, s).formValues
    ensures forall k :: k != a.key ==>
              && Lookup(Render(props, Apply(s, a)).formValues, k) == Lookup(Render(props, s).formValues, k)
              && Lookup(Render(props, Apply(s, a)).schemas, k) == Lookup(Render(props, s).schemas, k)
  {
    if a.SetSchema? {
      UpdateSchemaFrame(s, a.key, a.schema);
    }
  }
}
