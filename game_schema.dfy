/**
 * The game record schema: an object whose `id` and `name` are strings of
 * at least one character. Nothing else is checked, so a name of spaces is
 * accepted, and other fields are dropped from the result.
 */
module GameSchema {
  import opened Wrappers
  import opened Json

  datatype Game = Game(id: string, name: string)

  /** A present string of at least one character. */
  predicate NonEmptyString(v: Option<Json>) {
    v.Some? && v.value.JString? && |v.value.s| >= 1
  }

  /** `z.string().min(1)` */
  function ParseNonEmptyString(v: Option<Json>, path: Path): (r: Result<string, Issue>)
    ensures r.Ok? <==> NonEmptyString(v)
    ensures r.Ok? ==> v == Some(JString(r.value))
  {
    var s :- ParseString(v, path);
    if |s| < 1 then Err(Issue(path, TooShort(1))) else Ok(s)
  }

  /** `gameSchema` */
  function ValidateGame(input: Json): (r: Result<Game, Issue>)
    ensures r.Ok? <==>
      input.JObject? && NonEmptyString(Get(input.fields, "id")) && NonEmptyString(Get(input.fields, "name"))
    ensures r.Ok? ==>
      && Get(input.fields, "id") == Some(JString(r.value.id))
      && Get(input.fields, "name") == Some(JString(r.value.name))
  {
    match input
    case JObject(f) =>
      var id :- ParseNonEmptyString(Get(f, "id"), [Key("id")]);
      var name :- ParseNonEmptyString(Get(f, "name"), [Key("name")]);
      Ok(Game(id, name))
    case _ => Err(Issue([], InvalidType))
  }

  function EncodeGame(g: Game): Json {
    JObject(map["id" := JString(g.id), "name" := JString(g.name)])
  }

  /** A record is accepted exactly when both fields are non-empty, and then comes back unchanged. */
  lemma EncodeGameValidates(g: Game)
    ensures ValidateGame(EncodeGame(g)).Ok? <==> g.id != "" && g.name != ""
    ensures g.id != "" && g.name != "" ==> ValidateGame(EncodeGame(g)) == Ok(g)
  {
    assert Get(EncodeGame(g).fields, "id") == Some(JString(g.id));
    assert Get(EncodeGame(g).fields, "name") == Some(JString(g.name));
  }

  /** An empty id is rejected, and the issue names the id. */
  lemma EmptyIdRejected(name: string)
    ensures ValidateGame(EncodeGame(Game("", name))) == Err(Issue([Key("id")], TooShort(1)))
  {
    assert Get(EncodeGame(Game("", name)).fields, "id") == Some(JString(""));
  }

  /** An empty name is rejected, and the issue names the name. */
  lemma EmptyNameRejected(id: string)
    requires id != ""
    ensures ValidateGame(EncodeGame(Game(id, ""))) == Err(Issue([Key("name")], TooShort(1)))
  {
    assert Get(EncodeGame(Game(id, "")).fields, "id") == Some(JString(id));
    assert Get(EncodeGame(Game(id, "")).fields, "name") == Some(JString(""));
  }

  /** The only constraint is the length: a name of one space is accepted verbatim. */
  lemma BlankNameAccepted(id: string)
    requires id != ""
    ensures ValidateGame(EncodeGame(Game(id, " "))) == Ok(Game(id, " "))
  {
    EncodeGameValidates(Game(id, " "));
  }
}
