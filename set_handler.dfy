/**
 * The config-save endpoint (packages/core/src/server/api/file/set.ts):
 * `POST /config/set` with a body `{ type, data }`.
 *
 * The handler is split into a pure decision (`Decide`: reply straight away,
 * or save a document under a config name) and the method that carries the
 * decision out against the process state and builds the response.
 */
module SetHandler {
  import opened Wrappers
  import opened Json
  import Config

  /** The response kinds the handler sends. */
  datatype Response =
    | BadRequest(error: string)      // res.status(400).json({ error })
    | ServerError(message: string)   // createServerErrorResponse(res, message)
    | Success(message: string)       // createSuccessResponse(res, { message })

  /** Either answer at once, or write `doc` with `setConfig(name, doc)` and answer afterwards. */
  datatype Decision = Reply(response: Response) | Save(name: string, doc: Value)

  const InvalidData := "无效的配置数据"
  const UnsupportedType := "不支持的配置类型"
  const SavedMessage := "配置保存成功"
  const GroupsMalformed := "groups 数据格式错误"
  const PrivatesMalformed := "privates 数据格式错误"
  /** What V8 throws for `item.cd` when `item` is `null`. */
  const NullCdRead := "Cannot read properties of null (reading 'cd')"

  /** The sections whose current document is overlaid with `data`. */
  predicate IsOverlaySection(name: string) {
    name == "config" || name == "adapter" || name == "render" || name == "pm2" || name == "redis"
  }

  /** Every `type` the handler accepts. */
  predicate IsSection(name: string) {
    IsOverlaySection(name) || name == "env" || name == "groups" || name == "privates"
  }

  /** `{ ...current, ...data }`: every key of either, with `data`'s value winning. */
  function Overlay(current: Value, data: Value): (r: map<string, Value>)
    ensures r.Keys == Spread(current).Keys + Spread(data).Keys
    ensures forall k :: k in Spread(data) ==> r[k] == Spread(data)[k]
    ensures forall k :: k in Spread(current) && k !in Spread(data) ==> r[k] == Spread(current)[k]
  {
    Spread(current) + Spread(data)
  }

  /** `isNaN(Number(v)) ? 0 : Number(v)` */
  function NumberOrZero(v: Value): (n: int)
    ensures ToNumber(v).None? ==> n == 0
    ensures ToNumber(v).Some? ==> n == ToNumber(v).value
  {
    match ToNumber(v)
    case None => 0
    case Some(x) => x
  }

  /** A `cd` sent as the decimal text of an integer (as form fields send it) is saved as that integer. */
  lemma CdTextBecomesNumber(i: int)
    ensures NumberOrZero(Str(IntToString(i))) == i
  {
    IntToStringRoundTrip(i);
  }

  /** `{ ...item, cd: ..., userCD: ... }` for one entry of `groups`. */
  function CoerceGroup(item: Value): (r: Value)
    requires item.Obj? || item.Arr?
    ensures r.Obj?
    ensures r.fields.Keys == Spread(item).Keys + {"cd", "userCD"}
    ensures r.fields["cd"] == Num(NumberOrZero(Get(item, "cd")))
    ensures r.fields["userCD"] == Num(NumberOrZero(Get(item, "userCD")))
    ensures forall k :: k in Spread(item) && k != "cd" && k != "userCD" ==> r.fields[k] == Spread(item)[k]
  {
    Obj(Spread(item)["cd" := Num(NumberOrZero(Get(item, "cd")))]["userCD" := Num(NumberOrZero(Get(item, "userCD")))])
  }

  /** `{ ...item, cd: ... }` for one entry of `privates`: `userCD` is left as it is. */
  function CoercePrivate(item: Value): (r: Value)
    requires item.Obj? || item.Arr?
    ensures r.Obj?
    ensures r.fields.Keys == Spread(item).Keys + {"cd"}
    ensures r.fields["cd"] == Num(NumberOrZero(Get(item, "cd")))
    ensures forall k :: k in Spread(item) && k != "cd" ==> r.fields[k] == Spread(item)[k]
  {
    Obj(Spread(item)["cd" := Num(NumberOrZero(Get(item, "cd")))])
  }

  /** `Array.isArray(list) && list.every(item => typeof item === 'object')` */
  predicate IsObjectList(list: Value) {
    list.Arr? && forall i :: 0 <= i < |list.items| ==> IsObjectType(list.items[i])
  }

  /** Every item of `list` is an object, and none is `null`. */
  predicate NoNullEntry(list: Value)
    requires list.Arr?
  {
    forall i :: 0 <= i < |list.items| ==> !list.items[i].Null?
  }

  /** The `groups` (`groups` true) or `privates` coercion of one entry. */
  function CoerceEntry(item: Value, groups: bool): Value
    requires item.Obj? || item.Arr?
  {
    if groups then CoerceGroup(item) else CoercePrivate(item)
  }

  /**
   * The `groups` and `privates` branches: the list under `data[field]` is
   * checked, then mapped item by item.  `null` passes the `typeof` check, and
   * reading `cd` from it throws, which the handler turns into a server error.
   */
  function CoerceList(data: Value, field: string, malformed: string, groups: bool): (d: Decision)
    requires data.Obj? || data.Arr?
    ensures !IsObjectList(Get(data, field)) ==> d == Reply(ServerError(malformed))
    ensures IsObjectList(Get(data, field)) && !NoNullEntry(Get(data, field)) ==> d == Reply(ServerError(NullCdRead))
    ensures IsObjectList(Get(data, field)) && NoNullEntry(Get(data, field)) ==>
              var list := Get(data, field);
              && d.Save? && d.name == field && d.doc.Arr? && |d.doc.items| == |list.items|
              && forall i :: 0 <= i < |list.items| ==>
                   (list.items[i].Obj? || list.items[i].Arr?) && d.doc.items[i] == CoerceEntry(list.items[i], groups)
  {
    var list := Get(data, field);
    if !IsObjectList(list) then Reply(ServerError(malformed))
    else if !NoNullEntry(list) then Reply(ServerError(NullCdRead))
    else
      var items := list.items;
      Save(field, Arr(seq(|items|, i requires 0 <= i < |items| => CoerceEntry(items[i], groups))))
  }

  /**
   * What the handler does with `{ type, data }`.  `cache` is `config()`;
   * `read(name)` is what the accessor of that section (`adapter()`,
   * `render()`, `pm2()`, `redis()`) returns.
   */
  function Decide(type_: Value, data: Value, cache: Value, read: string -> Value): (d: Decision)
    ensures !(data.Obj? || data.Arr?) ==> d == Reply(BadRequest(InvalidData))
    ensures (data.Obj? || data.Arr?) && !(type_.Str? && IsSection(type_.s)) ==> d == Reply(BadRequest(UnsupportedType))
    ensures d == Reply(BadRequest(UnsupportedType)) ==> !(type_.Str? && IsSection(type_.s))
    ensures d.Save? ==> type_ == Str(d.name) && IsSection(d.name) && (data.Obj? || data.Arr?)
    ensures (data.Obj? || data.Arr?) && type_.Str? && IsOverlaySection(type_.s) ==>
              d == Save(type_.s, Obj(Overlay(if type_.s == "config" then cache else read(type_.s), data)))
    ensures (data.Obj? || data.Arr?) && type_ == Str("env") ==> d == Save("env", data)
    ensures (data.Obj? || data.Arr?) && type_ == Str("groups") ==> d == CoerceList(data, "groups", GroupsMalformed, true)
    ensures (data.Obj? || data.Arr?) && type_ == Str("privates") ==> d == CoerceList(data, "privates", PrivatesMalformed, false)
  {
    if !Truthy(data) || !IsObjectType(data) then Reply(BadRequest(InvalidData))
    else if !type_.Str? then Reply(BadRequest(UnsupportedType))
    else
      var name := type_.s;
      if name == "config" then Save(name, Obj(Overlay(cache, data)))
      else if IsOverlaySection(name) then Save(name, Obj(Overlay(read(name), data)))
      else if name == "env" then Save(name, data)
      else if name == "groups" then CoerceList(data, name, GroupsMalformed, true)
      else if name == "privates" then CoerceList(data, name, PrivatesMalformed, false)
      else Reply(BadRequest(UnsupportedType))
  }

  /**
   * A `groups` list of non-null objects is always saved, with the same length
   * and order; each entry keeps its other fields and gets numeric `cd` and
   * `userCD` (0 for NaN).
   */
  lemma GroupsCoerced(data: Value, cache: Value, read: string -> Value)
    requires data.Obj? || data.Arr?
    requires IsObjectList(Get(data, "groups")) && NoNullEntry(Get(data, "groups"))
    ensures var list := Get(data, "groups"); var d := Decide(Str("groups"), data, cache, read);
      && d.Save? && d.name == "groups" && d.doc.Arr? && |d.doc.items| == |list.items|
      && forall i :: 0 <= i < |list.items| ==>
           (list.items[i].Obj? || list.items[i].Arr?) && d.doc.items[i] == CoerceGroup(list.items[i])
  {
    var list := Get(data, "groups");
    var d := Decide(Str("groups"), data, cache, read);
    forall i | 0 <= i < |list.items|
      ensures (list.items[i].Obj? || list.items[i].Arr?) && d.doc.items[i] == CoerceGroup(list.items[i])
    {
      assert d.doc.items[i] == CoerceEntry(list.items[i], true);
    }
  }

  /**
   * A `privates` list of non-null objects is always saved, with the same
   * length and order; each entry gets a numeric `cd` (0 for NaN) and every
   * other field, `userCD` included, is kept.
   */
  lemma PrivatesCoerced(data: Value, cache: Value, read: string -> Value)
    requires data.Obj? || data.Arr?
    requires IsObjectList(Get(data, "privates")) && NoNullEntry(Get(data, "privates"))
    ensures var list := Get(data, "privates"); var d := Decide(Str("privates"), data, cache, read);
      && d.Save? && d.name == "privates" && d.doc.Arr? && |d.doc.items| == |list.items|
      && forall i :: 0 <= i < |list.items| ==>
           (list.items[i].Obj? || list.items[i].Arr?) && d.doc.items[i] == CoercePrivate(list.items[i])
  {
    var list := Get(data, "privates");
    var d := Decide(Str("privates"), data, cache, read);
    forall i | 0 <= i < |list.items|
      ensures (list.items[i].Obj? || list.items[i].Arr?) && d.doc.items[i] == CoercePrivate(list.items[i])
    {
      assert d.doc.items[i] == CoerceEntry(list.items[i], false);
    }
  }

  /** A `null` entry passes the shape check but makes the mapping throw: nothing is written. */
  lemma NullEntryIsServerError(data: Value, cache: Value, read: string -> Value, field: string, i: nat)
    requires field == "groups" || field == "privates"
    requires data.Obj? && field in data.fields && IsObjectList(data.fields[field])
    requires i < |data.fields[field].items| && data.fields[field].items[i].Null?
    ensures Decide(Str(field), data, cache, read) == Reply(ServerError(NullCdRead))
  {
    assert Get(data, field) == data.fields[field];
  }

  /** A `groups` body holding one object entry saves that entry coerced. */
  lemma SingleGroup(item: Value, data: Value, cache: Value, read: string -> Value)
    requires item.Obj? && data == Obj(map["groups" := Arr([item])])
    ensures Decide(Str("groups"), data, cache, read) == Save("groups", Arr([CoerceGroup(item)]))
  {
    assert Get(data, "groups") == Arr([item]);
    assert IsObjectList(Arr([item]));
    var items := [item];
    assert seq(|items|, i requires 0 <= i < |items| => CoerceEntry(items[i], true)) == [CoerceGroup(item)];
  }

  /**
   * `Number('5')` is 5 and `Number('abc')` is NaN. The literals are parameters
   * pinned by `requires` to keep the proof within the verifier's resource limit.
   */
  lemma ScenarioNumbers(five: string, abc: string)
    requires five == "5" && abc == "abc"
    ensures ToNumber(Str(five)) == Some(5) && ToNumber(Str(abc)) == None
  {
    assert TrimStart(five) == five && TrimEnd(five) == five;
    assert DigitsValue(five) == 5 by { assert five[..0] == ""; }
    assert TrimStart(abc) == abc && TrimEnd(abc) == abc;
    assert !IsDigit(abc[0]);
  }

  /** Coercing an entry that holds exactly `cd` and `userCD`. */
  lemma CoerceCdPair(a: Value, b: Value)
    ensures CoerceGroup(Obj(map["cd" := a, "userCD" := b]))
         == Obj(map["cd" := Num(NumberOrZero(a)), "userCD" := Num(NumberOrZero(b))])
  {
    var item := Obj(map["cd" := a, "userCD" := b]);
    assert Get(item, "cd") == a && Get(item, "userCD") == b;
    assert CoerceGroup(item).fields.Keys == {"cd", "userCD"};
  }

  /**
   * The scenario `groups: [{ cd: '5', userCD: 'abc' }]` saves `cd: 5, userCD: 0`.
   * The literals are parameters pinned by `requires` to keep the proof within
   * the verifier's resource limit.
   */
  lemma GroupsScenario(cache: Value, read: string -> Value, five: string, abc: string)
    requires five == "5" && abc == "abc"
    ensures Decide(Str("groups"),
                   Obj(map["groups" := Arr([Obj(map["cd" := Str(five), "userCD" := Str(abc)])])]),
                   cache, read)
         == Save("groups", Arr([Obj(map["cd" := Num(5), "userCD" := Num(0)])]))
  {
    var item := Obj(map["cd" := Str(five), "userCD" := Str(abc)]);
    SingleGroup(item, Obj(map["groups" := Arr([item])]), cache, read);
    ScenarioNumbers(five, abc);
    CoerceCdPair(Str(five), Str(abc));
  }

  /** The response once `setConfig` has returned or thrown: success even when it returned false. */
  function Finish(out: Config.SetOutcome): (r: Response)
    ensures out.Threw? ==> r == ServerError(out.message)
    ensures !out.Threw? ==> r == Success(SavedMessage)
  {
    if out.Threw? then ServerError(out.message) else Success(SavedMessage)
  }

  /**
   * `setFileRouter`: decides, writes through `setConfig` when the decision is
   * to save, and answers.  `read` stands for the section accessors other than
   * `config()`, and `ioError` for a failing file write.
   */
  method SetFileRouter(p: Config.Process, type_: Value, data: Value, read: string -> Value, ioError: Option<string>)
      returns (response: Response)
    requires p.Valid()
    modifies p`files, p`envUpdates
    ensures var d := Decide(type_, data, old(p.cache), read);
      d.Reply? ==> response == d.response && p.files == old(p.files) && p.envUpdates == old(p.envUpdates)
    ensures var d := Decide(type_, data, old(p.cache), read);
      d.Save? ==>
        var out := Config.SetYamlOutcome(p.roots, old(p.files), d.name, ioError);
        && response == Finish(out)
        && p.files == Config.FilesAfterSet(p.roots, old(p.files), d.name, d.doc, out)
        && p.envUpdates == (if out == Config.Delegated then old(p.envUpdates) + [d.doc] else old(p.envUpdates))
  {
    var d := Decide(type_, data, p.Config(), read);
    if d.Reply? {
      return d.response;
    }
    var out := p.SetConfig(d.name, d.doc, ioError);
    response := Finish(out);
  }
}
