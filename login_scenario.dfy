/** A client of the binder: a login form whose validator requires `user`,
    mounted, rendered and submitted with `user` empty and with it filled in.
    Everything asserted here follows from the definitions and contracts of
    CreateForm. */
module LoginScenario {
  import opened JsValues
  import opened CreateForm

  function RequireUser(values: map<string, JsValue>): map<string, JsValue> {
    if Truthy(Lookup(values, "user")) then map[] else map["user" := Str("required")]
  }

  function LoginConfig(): FormConfig {
    FormConfig("login", ["user", "pass"], Some(RequireUser), None)
  }

  function LoginDefinition(): seq<FieldDef> {
    [FieldDef("user"), FieldDef("pass")]
  }

  /** The login form's definition list collects exactly `user` and `pass`. */
  lemma CollectLogin(values: map<string, JsValue>)
    ensures Collect(LoginDefinition(), values) == map["user" := Lookup(values, "user"), "pass" := Lookup(values, "pass")]
  {
    var defs := LoginDefinition();
    assert defs[..1] == [FieldDef("user")] && defs[..1][..0] == [];
  }

  method MountThenUnmount()
  {
    var store := new Store();
    var form := new Form(LoginConfig(), store);
    form.ComponentDidMount();
    assert |store.log| == 2;
    assert form.config.fields[0] == "user" && form.config.fields[1] == "pass";
    assert store.log[0] == DefineField("login", "user");
    assert store.log[1] == DefineField("login", "pass");
    form.ComponentWillUnmount();
    assert store.log[2] == Destroy("login");
  }

  /** The names the submit handler touches on the login form. */
  lemma LoginNames()
    ensures DefinitionNames(LoginDefinition()) == ["user", "pass"]
  {
    var names := DefinitionNames(LoginDefinition());
    assert |names| == 2 && names[0] == "user" && names[1] == "pass";
  }

  /** What a render of the login form with `user` empty derives. */
  lemma EmptyUserRender()
    ensures var values := map["user" := Str(""), "pass" := Str("x")];
      var out := Derive(LoginConfig(), values, LoginDefinition(), map[]);
      && out.hasError
      && out.fields["user"].error == Some(Str("required"))
      && out.definitionNames == ["user", "pass"]
  {
    var values := map["user" := Str(""), "pass" := Str("x")];
    RenderErrors(LoginConfig(), values, LoginDefinition(), map[]);
    CollectLogin(values);
    var collected := Collect(LoginDefinition(), values);
    assert collected == values;
    assert !Truthy(Lookup(collected, "user"));
    assert LoginConfig().validate.value(collected) == map["user" := Str("required")];
    assert "user" in LoginConfig().validate.value(collected);
    LoginNames();
  }

  /** What a render of the login form with `user` filled in derives. */
  lemma TypedUserRender()
    ensures var values := map["user" := Str("alice"), "pass" := Str("x")];
      var out := Derive(LoginConfig(), values, LoginDefinition(), map[]);
      && !out.hasError
      && out.collected == values
      && out.definitionNames == ["user", "pass"]
  {
    var values := map["user" := Str("alice"), "pass" := Str("x")];
    RenderErrors(LoginConfig(), values, LoginDefinition(), map[]);
    CollectLogin(values);
    var collected := Collect(LoginDefinition(), values);
    assert collected == values;
    assert Truthy(Lookup(collected, "user"));
    assert LoginConfig().validate.value(collected) == map[];
    LoginNames();
  }

  /** With `user` empty, the render reports the error and submit only touches. */
  method EmptyUserBlocksSubmit()
  {
    var store := new Store();
    var form := new Form(LoginConfig(), store);
    var values := map["user" := Str(""), "pass" := Str("x")];
    var out := form.Render(values, LoginDefinition(), map[]);
    EmptyUserRender();
    assert out.fields["user"].error == Some(Str("required"));
    var called := form.HandleSubmit(out);
    assert called == None;
    assert store.log == [Touch("login", ["user", "pass"])];
  }

  /** Typing a name dispatches it; with it stored, submit reaches the handler. */
  method TypedUserReachesHandler()
  {
    var store := new Store();
    var form := new Form(LoginConfig(), store);
    var event := Obj(map["target" := Obj(map["value" := Str("alice")])]);
    form.SetFieldValue(SetFieldValueFor("user"), event);
    assert store.log == [Change("login", "user", Str("alice"), false, false)];

    var values := map["user" := Str("alice"), "pass" := Str("x")];
    var out := form.Render(values, LoginDefinition(), map[]);
    TypedUserRender();
    var called := form.HandleSubmit(out);
    assert called == Some(map["user" := Str("alice"), "pass" := Str("x")]);
    assert store.log[1] == Touch("login", ["user", "pass"]);
  }
}
