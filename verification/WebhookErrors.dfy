/**
 * The errors in an incoming webhook: nested loops that push into one list, over JSON of any shape.
 * They are tied to a reading of the payload place by place.
 */
module WebhookErrors {
  import opened Common
  import opened Json
  import opened Payload

  datatype ErroDeWebhook = ErroDeWebhook(
    referencia: Option<string>,
    codigo: Option<string>,
    resumo: string,
    corpo: Json,
    wabaId: Option<string>,
    pid: Option<string>)

  datatype Contexto = Contexto(referencia: Option<string>, wabaId: Option<string>, pid: Option<string>)

  /** `ehObjeto(v[key]) ? v[key] : undefined`. */
  function ObjectAt(v: Json, key: string): (r: Option<Json>)
    requires v.Obj?
    ensures r.Some? ==> r.value.Obj?
  {
    var found := Prop(v, key);
    if found.Some? && found.value.Obj? then found else None
  }

  // --- The line for the log -------------------------------------------------------------------

  const DASH := " \U{2014} "
  const SEM_DESCRICAO := "erro da Meta sem descri\U{E7}\U{E3}o"

  function Partes(erro: Json): seq<Option<string>>
    requires erro.Obj?
  {
    var titulo := NonEmptyText(Prop(erro, "title"));
    var dados := ObjectAt(erro, "error_data");
    [FiniteNumber(Prop(erro, "code")),
     if titulo.Some? then titulo else NonEmptyText(Prop(erro, "message")),
     if dados.Some? then NonEmptyText(Prop(dados.value, "details")) else None]
  }

  function JoinParts(partes: seq<Option<string>>): string
  {
    if partes == [] then "" else
    var rest := JoinParts(partes[1..]);
    if partes[0].None? || partes[0].value == "" then rest
    else if rest == "" then partes[0].value
    else partes[0].value + DASH + rest
  }

  function ResumirErro(erro: Json): string
    requires erro.Obj?
  {
    var line := JoinParts(Partes(erro));
    if line == "" then SEM_DESCRICAO else line
  }

  predicate EndsWith(s: string, suffix: string)
  {
    |suffix| <= |s| && s[|s| - |suffix|..] == suffix
  }

  lemma {:induction false} LastPartEnds(partes: seq<Option<string>>)
    requires partes != [] && partes[|partes| - 1].Some? && partes[|partes| - 1].value != ""
    ensures JoinParts(partes) != "" && EndsWith(JoinParts(partes), partes[|partes| - 1].value)
  {
    if |partes| > 1 {
      LastPartEnds(partes[1..]);
    } else {
      assert JoinParts(partes[1..]) == "";
    }
  }

  /** The details, which hold the reason, always end the line, and the line is never empty. */
  lemma DetailsEndTheLine(erro: Json)
    requires erro.Obj?
    ensures ResumirErro(erro) != ""
    ensures var dados := ObjectAt(erro, "error_data");
      dados.Some? && NonEmptyText(Prop(dados.value, "details")).Some? ==>
        EndsWith(ResumirErro(erro), NonEmptyText(Prop(dados.value, "details")).value)
  {
    var p := Partes(erro);
    if p[2].Some? {
      LastPartEnds(p);
    }
  }

  // --- Records with the place they come from --------------------------------------------------

  /** Indices into the arrays on the way; under a value, 0 leads to its statuses and 1 to its own errors. */
  type Place = seq<nat>
  type Items = seq<(Place, ErroDeWebhook)>

  function Under(n: nat, items: Items): (r: Items)
    ensures |r| == |items|
  {
    seq(|items|, i requires 0 <= i < |items| => ([n] + items[i].0, items[i].1))
  }

  /** The items of the children, each under the number of its child. */
  function Together(children: seq<Items>): Items
  {
    if children == [] then [] else
    var n := |children| - 1;
    Together(children[..n]) + Under(n, children[n])
  }

  function Records(items: Items): (r: seq<ErroDeWebhook>)
    ensures |r| == |items|
  {
    seq(|items|, i requires 0 <= i < |items| => items[i].1)
  }

  function Record(erro: Json, node: Json, c: Contexto): ErroDeWebhook
    requires erro.Obj?
  {
    ErroDeWebhook(c.referencia, FiniteNumber(Prop(erro, "code")), ResumirErro(erro), node, c.wabaId, c.pid)
  }

  function ItemsAt(v: Json, key: string): seq<Json>
    requires v.Obj?
  {
    var a := AsArray(Prop(v, key));
    if a.None? then [] else a.value
  }

  function OfError(erro: Json, node: Json, c: Contexto): Items
  {
    if erro.Obj? then [([], Record(erro, node, c))] else []
  }

  function OfNode(node: Json, c: Contexto): Items
    requires node.Obj?
  {
    var erros := ItemsAt(node, "errors");
    Together(seq(|erros|, i requires 0 <= i < |erros| => OfError(erros[i], node, c)))
  }

  function OfStatus(status: Json, wabaId: Option<string>, pid: Option<string>): Items
  {
    if status.Obj? then OfNode(status, Contexto(NonEmptyText(Prop(status, "id")), wabaId, pid)) else []
  }

  function PidOf(value: Json): Option<string>
    requires value.Obj?
  {
    var metadata := ObjectAt(value, "metadata");
    if metadata.None? then None else NonEmptyText(Prop(metadata.value, "phone_number_id"))
  }

  function OfStatuses(value: Json, wabaId: Option<string>): Items
    requires value.Obj?
  {
    var statuses := ItemsAt(value, "statuses");
    Together(seq(|statuses|, i requires 0 <= i < |statuses| => OfStatus(statuses[i], wabaId, PidOf(value))))
  }

  function OfValue(value: Json, wabaId: Option<string>): Items
    requires value.Obj?
  {
    Together([OfStatuses(value, wabaId), OfNode(value, Contexto(None, wabaId, PidOf(value)))])
  }

  function OfChange(change: Json, wabaId: Option<string>): Items
  {
    if !change.Obj? then [] else
    var value := ObjectAt(change, "value");
    if value.None? then [] else OfValue(value.value, wabaId)
  }

  function OfEntry(entry: Json): Items
  {
    if !entry.Obj? then [] else
    var changes := ItemsAt(entry, "changes");
    Together(seq(|changes|, i requires 0 <= i < |changes| => OfChange(changes[i], NonEmptyText(Prop(entry, "id")))))
  }

  function OfPayload(payload: Json): Items
    requires !payload.Null?
  {
    if !payload.Obj? then [] else
    var entries := ItemsAt(payload, "entry");
    Together(seq(|entries|, i requires 0 <= i < |entries| => OfEntry(entries[i])))
  }

  // --- The payload read place by place --------------------------------------------------------

  function Item(v: Json, key: string, n: nat): Option<Json>
  {
    if v.Obj? && key in v.fields && v.fields[key].Arr? && n < |v.fields[key].items| && v.fields[key].items[n].Obj?
    then Some(v.fields[key].items[n]) else None
  }

  /** The record for element `n` of the errors of `node`, if that element is an object. */
  function ErrorOf(node: Json, n: nat, c: Contexto): Option<ErroDeWebhook>
  {
    var erro := Item(node, "errors", n);
    if erro.None? then None else Some(Record(erro.value, node, c))
  }

  /** The record that belongs at a place, `None` if the payload has no error there. */
  function RecordAt(payload: Json, p: Place): Option<ErroDeWebhook>
  {
    if |p| < 4 then None else
    var entry := Item(payload, "entry", p[0]);
    if entry.None? then None else
    var change := Item(entry.value, "changes", p[1]);
    if change.None? then None else
    var value := ObjectAt(change.value, "value");
    if value.None? then None else
    var wabaId, pid := NonEmptyText(Prop(entry.value, "id")), PidOf(value.value);
    if p[2] == 1 && |p| == 4 then ErrorOf(value.value, p[3], Contexto(None, wabaId, pid))
    else if p[2] == 0 && |p| == 5 then
      var status := Item(value.value, "statuses", p[3]);
      if status.None? then None
      else ErrorOf(status.value, p[4], Contexto(NonEmptyText(Prop(status.value, "id")), wabaId, pid))
    else None
  }

  // --- The two readings agree -----------------------------------------------------------------

  /** Document order. */
  predicate Before(p: Place, q: Place)
  {
    p != [] && q != [] && (p[0] < q[0] || (p[0] == q[0] && Before(p[1..], q[1..])))
  }

  ghost predicate InOrder(items: Items)
  {
    forall i, j :: 0 <= i < j < |items| ==> Before(items[i].0, items[j].0)
  }

  lemma {:induction false} TogetherHas(children: seq<Items>, p: Place, e: ErroDeWebhook)
    ensures (p, e) in Together(children) <==> p != [] && p[0] < |children| && (p[1..], e) in children[p[0]]
  {
    if children != [] {
      var n := |children| - 1;
      TogetherHas(children[..n], p, e);
      UnderHas(n, children[n], p, e);
    }
  }

  lemma UnderHas(n: nat, items: Items, p: Place, e: ErroDeWebhook)
    ensures (p, e) in Under(n, items) <==> p != [] && p[0] == n && (p[1..], e) in items
  {
    if p != [] && p[0] == n && (p[1..], e) in items {
      var i :| 0 <= i < |items| && items[i] == (p[1..], e);
      assert Under(n, items)[i] == ([n] + p[1..], e);
      assert p == [n] + p[1..];
    }
    if (p, e) in Under(n, items) {
      var i :| 0 <= i < |items| && Under(n, items)[i] == (p, e);
      assert ([n] + items[i].0)[1..] == items[i].0;
    }
  }

  lemma {:induction false} TogetherInOrder(children: seq<Items>)
    requires forall n :: 0 <= n < |children| ==> InOrder(children[n])
    ensures InOrder(Together(children))
    ensures forall i :: 0 <= i < |Together(children)| ==> Together(children)[i].0 != [] && Together(children)[i].0[0] < |children|
  {
    if children != [] {
      var n := |children| - 1;
      TogetherInOrder(children[..n]);
      assert forall i :: 0 <= i < |children[n]| ==> ([n] + children[n][i].0)[1..] == children[n][i].0;
    }
  }

  lemma NodeHas(node: Json, c: Contexto, p: Place, e: ErroDeWebhook)
    requires node.Obj?
    ensures (p, e) in OfNode(node, c) <==> |p| == 1 && ErrorOf(node, p[0], c) == Some(e)
    ensures InOrder(OfNode(node, c))
  {
    var erros := ItemsAt(node, "errors");
    var children := seq(|erros|, i requires 0 <= i < |erros| => OfError(erros[i], node, c));
    TogetherHas(children, p, e);
    forall n | 0 <= n < |erros|
      ensures p != [] && p[0] == n ==>
        ((p[1..], e) in children[n] <==> |p| == 1 && erros[n].Obj? && e == Record(erros[n], node, c))
    {
      assert p != [] ==> (p[1..] == [] <==> |p| == 1);
    }
    TogetherInOrder(children);
  }

  lemma StatusesHas(value: Json, wabaId: Option<string>, p: Place, e: ErroDeWebhook)
    requires value.Obj?
    ensures (p, e) in OfStatuses(value, wabaId) <==>
      |p| == 2 && var status := Item(value, "statuses", p[0]);
      status.Some? && ErrorOf(status.value, p[1], Contexto(NonEmptyText(Prop(status.value, "id")), wabaId, PidOf(value))) == Some(e)
    ensures InOrder(OfStatuses(value, wabaId))
  {
    var statuses := ItemsAt(value, "statuses");
    var children := seq(|statuses|, i requires 0 <= i < |statuses| => OfStatus(statuses[i], wabaId, PidOf(value)));
    TogetherHas(children, p, e);
    forall n | 0 <= n < |statuses|
      ensures InOrder(children[n])
      ensures p != [] && p[0] == n && statuses[n].Obj? ==> ((p[1..], e) in children[n] <==>
        |p| == 2 && ErrorOf(statuses[n], p[1], Contexto(NonEmptyText(Prop(statuses[n], "id")), wabaId, PidOf(value))) == Some(e))
    {
      if statuses[n].Obj? {
        NodeHas(statuses[n], Contexto(NonEmptyText(Prop(statuses[n], "id")), wabaId, PidOf(value)), if p == [] then p else p[1..], e);
      }
    }
    TogetherInOrder(children);
  }

  lemma ValueHas(value: Json, wabaId: Option<string>, p: Place, e: ErroDeWebhook)
    requires value.Obj?
    ensures (p, e) in OfValue(value, wabaId) <==>
      || (p != [] && p[0] == 0 && (p[1..], e) in OfStatuses(value, wabaId))
      || (p != [] && p[0] == 1 && (p[1..], e) in OfNode(value, Contexto(None, wabaId, PidOf(value))))
    ensures InOrder(OfValue(value, wabaId))
  {
    var c := Contexto(None, wabaId, PidOf(value));
    var children := [OfStatuses(value, wabaId), OfNode(value, c)];
    TogetherHas(children, p, e);
    StatusesHas(value, wabaId, p, e);
    NodeHas(value, c, p, e);
    TogetherInOrder(children);
  }

  /** `RecordAt` below an entry. */
  function RecordBelow(change: Json, wabaId: Option<string>, p: Place): Option<ErroDeWebhook>
  {
    if |p| < 2 || !change.Obj? then None else
    var value := ObjectAt(change, "value");
    if value.None? then None else
    if p[0] == 1 && |p| == 2 then ErrorOf(value.value, p[1], Contexto(None, wabaId, PidOf(value.value)))
    else if p[0] == 0 && |p| == 3 then
      var status := Item(value.value, "statuses", p[1]);
      if status.None? then None
      else ErrorOf(status.value, p[2], Contexto(NonEmptyText(Prop(status.value, "id")), wabaId, PidOf(value.value)))
    else None
  }

  lemma ChangeHas(change: Json, wabaId: Option<string>, p: Place, e: ErroDeWebhook)
    ensures (p, e) in OfChange(change, wabaId) <==> RecordBelow(change, wabaId, p) == Some(e)
    ensures InOrder(OfChange(change, wabaId))
  {
    if change.Obj? && ObjectAt(change, "value").Some? {
      var value := ObjectAt(change, "value").value;
      ValueHas(value, wabaId, p, e);
      if p != [] {
        StatusesHas(value, wabaId, p[1..], e);
        NodeHas(value, Contexto(None, wabaId, PidOf(value)), p[1..], e);
      }
    }
  }

  lemma EntryHas(entry: Json, p: Place, e: ErroDeWebhook)
    ensures (p, e) in OfEntry(entry) <==>
      p != [] && entry.Obj? && var change := Item(entry, "changes", p[0]);
      change.Some? && RecordBelow(change.value, NonEmptyText(Prop(entry, "id")), p[1..]) == Some(e)
    ensures InOrder(OfEntry(entry))
  {
    if entry.Obj? {
      var changes, wabaId := ItemsAt(entry, "changes"), NonEmptyText(Prop(entry, "id"));
      var children := seq(|changes|, i requires 0 <= i < |changes| => OfChange(changes[i], wabaId));
      TogetherHas(children, p, e);
      forall n | 0 <= n < |changes|
        ensures InOrder(children[n])
        ensures p != [] ==> ((p[1..], e) in children[n] <==> RecordBelow(changes[n], wabaId, p[1..]) == Some(e))
      {
        ChangeHas(changes[n], wabaId, if p == [] then p else p[1..], e);
      }
      TogetherInOrder(children);
    }
  }

  /**
   * On every payload the records are those of the places that hold an error, each place once and in
   * document order; what stands at other places, malformed or not, has no part in it.
   */
  lemma OneRecordPerError(payload: Json, p: Place, e: ErroDeWebhook)
    requires !payload.Null?
    ensures (p, e) in OfPayload(payload) <==> RecordAt(payload, p) == Some(e)
    ensures InOrder(OfPayload(payload))
  {
    if payload.Obj? {
      var entries := ItemsAt(payload, "entry");
      var children := seq(|entries|, i requires 0 <= i < |entries| => OfEntry(entries[i]));
      TogetherHas(children, p, e);
      forall n | 0 <= n < |entries|
        ensures InOrder(children[n])
        ensures p != [] && p[0] == n ==> ((p[1..], e) in children[n] <==> RecordAt(payload, p) == Some(e))
      {
        EntryHas(entries[n], if p == [] then p else p[1..], e);
      }
      TogetherInOrder(children);
    }
  }

  // --- A record in terms of paths into the payload --------------------------------------------

  /** Entry, change and error index of an error of a value, with the index of the status for one of a status. */
  predicate IsPlace(p: Place)
  {
    (|p| == 4 && p[2] == 1) || (|p| == 5 && p[2] == 0)
  }

  function EntryPath(p: Place): seq<Hop>
    requires IsPlace(p)
  {
    [Key("entry"), Index(p[0])]
  }

  function ValuePath(p: Place): seq<Hop>
    requires IsPlace(p)
  {
    EntryPath(p) + [Key("changes"), Index(p[1]), Key("value")]
  }

  /** The status or the value that holds the error. */
  function NodePath(p: Place): seq<Hop>
    requires IsPlace(p)
  {
    if |p| == 4 then ValuePath(p) else ValuePath(p) + [Key("statuses"), Index(p[3])]
  }

  function ErrorPath(p: Place): seq<Hop>
    requires IsPlace(p)
  {
    NodePath(p) + [Key("errors"), Index(p[|p| - 1])]
  }

  /** `text` is the text at the path, if there is one and it is not empty. */
  ghost predicate TextAt(payload: Json, path: seq<Hop>, text: Option<string>)
  {
    forall t :: text == Some(t) <==> At(payload, path) == Some(Str(t)) && t != ""
  }

  ghost predicate FiniteAt(payload: Json, path: seq<Hop>, number: Option<string>)
  {
    forall t :: number == Some(t) <==> At(payload, path) == Some(Num(t)) && t != "NaN" && t != "Infinity" && t != "-Infinity"
  }

  /** The line: the parts there are, in this order. */
  function Line(code: Option<string>, title: Option<string>, details: Option<string>): string
  {
    match (code, title, details)
    case (None, None, None) => "erro da Meta sem descri\U{E7}\U{E3}o"
    case (Some(c), None, None) => c
    case (None, Some(t), None) => t
    case (None, None, Some(d)) => d
    case (Some(c), Some(t), None) => c + " \U{2014} " + t
    case (Some(c), None, Some(d)) => c + " \U{2014} " + d
    case (None, Some(t), Some(d)) => t + " \U{2014} " + d
    case (Some(c), Some(t), Some(d)) => c + " \U{2014} " + t + " \U{2014} " + d
  }

  /** Code, title or else message, and details of the error at the path. */
  ghost predicate LineAt(payload: Json, path: seq<Hop>, line: string)
  {
    exists code, title, message, details ::
      && FiniteAt(payload, path + [Key("code")], code)
      && TextAt(payload, path + [Key("title")], title) && TextAt(payload, path + [Key("message")], message)
      && TextAt(payload, path + [Key("error_data"), Key("details")], details)
      && line == Line(if code == Some("") then None else code, if title.Some? then title else message, details)
  }

  /** Each field of a record, by the path it is read from. */
  ghost predicate RecordTells(payload: Json, p: Place, e: ErroDeWebhook)
    requires IsPlace(p)
  {
    && At(payload, NodePath(p)) == Some(e.corpo)
    && TextAt(payload, EntryPath(p) + [Key("id")], e.wabaId)
    && TextAt(payload, ValuePath(p) + [Key("metadata"), Key("phone_number_id")], e.pid)
    && (if |p| == 4 then e.referencia == None else TextAt(payload, NodePath(p) + [Key("id")], e.referencia))
    && FiniteAt(payload, ErrorPath(p) + [Key("code")], e.codigo)
    && LineAt(payload, ErrorPath(p), e.resumo)
  }

  lemma {:induction false} AtJoin(v: Json, a: seq<Hop>, b: seq<Hop>)
    ensures At(v, a + b) == var m := At(v, a); if m.None? then None else At(m.value, b)
  {
    if a == [] {
      assert a + b == b;
    } else {
      assert (a + b)[0] == a[0] && (a + b)[1..] == a[1..] + b;
      match a[0]
      case Key(name) => if v.Obj? && name in v.fields { AtJoin(v.fields[name], a[1..], b); }
      case Index(n) => if v.Arr? && n < |v.items| { AtJoin(v.items[n], a[1..], b); }
    }
  }

  /** One property. */
  lemma AtKey(v: Json, name: string)
    ensures At(v, [Key(name)]) == if v.Null? then None else Prop(v, name)
  {
    Steps(v, Key(name), []);
    assert [Key(name)] == [Key(name)] + [];
  }

  lemma TextAtKey(payload: Json, path: seq<Hop>, v: Json, name: string)
    requires At(payload, path) == Some(v) && !v.Null?
    ensures TextAt(payload, path + [Key(name)], NonEmptyText(Prop(v, name)))
    ensures FiniteAt(payload, path + [Key(name)], FiniteNumber(Prop(v, name)))
  {
    AtJoin(payload, path, [Key(name)]);
    AtKey(v, name);
  }

  /** A text below a property that has to be an object, as the metadata of a value. */
  lemma TextBelowKey(payload: Json, path: seq<Hop>, v: Json, outer: string, name: string)
    requires At(payload, path) == Some(v) && v.Obj?
    ensures TextAt(payload, path + [Key(outer), Key(name)],
      if ObjectAt(v, outer).Some? then NonEmptyText(Prop(ObjectAt(v, outer).value, name)) else None)
  {
    AtJoin(payload, path, [Key(outer), Key(name)]);
    assert [Key(outer), Key(name)] == [Key(outer)] + [Key(name)];
    AtJoin(v, [Key(outer)], [Key(name)]);
    AtKey(v, outer);
    if Prop(v, outer).Some? {
      AtKey(Prop(v, outer).value, name);
    }
  }

  lemma ResumoIsLine(code: Option<string>, title: Option<string>, details: Option<string>)
    requires title != Some("") && details != Some("")
    ensures (if JoinParts([code, title, details]) == "" then SEM_DESCRICAO else JoinParts([code, title, details])) ==
      Line(if code == Some("") then None else code, title, details)
  {
    var parts := [code, title, details];
    assert parts[1..] == [title, details] && parts[1..][1..] == [details] && [details][1..] == [];
    assert JoinParts([details]) == if details.None? then "" else details.value;
  }

  lemma ErrorTells(payload: Json, path: seq<Hop>, erro: Json)
    requires At(payload, path) == Some(erro) && erro.Obj?
    ensures FiniteAt(payload, path + [Key("code")], FiniteNumber(Prop(erro, "code")))
    ensures LineAt(payload, path, ResumirErro(erro))
  {
    TextAtKey(payload, path, erro, "code");
    TextAtKey(payload, path, erro, "title");
    TextAtKey(payload, path, erro, "message");
    TextBelowKey(payload, path, erro, "error_data", "details");
    var p := Partes(erro);
    ResumoIsLine(p[0], p[1], p[2]);
    assert p == [p[0], p[1], p[2]];
  }

  /** An element that is an object, and the path to it. */
  lemma ItemIsAt(payload: Json, path: seq<Hop>, v: Json, key: string, n: nat)
    requires At(payload, path) == Some(v)
    ensures var found := At(payload, path + [Key(key), Index(n)]);
      Item(v, key, n) == if found.Some? && found.value.Obj? then found else None
  {
    AtJoin(payload, path, [Key(key), Index(n)]);
    assert [Key(key), Index(n)] == [Key(key)] + [Index(n)];
    Steps(v, Key(key), [Index(n)]);
    if v.Obj? && key in v.fields {
      assert [Index(n)] == [Index(n)] + [];
      Steps(v.fields[key], Index(n), []);
    }
  }

  /** What is not an object leads nowhere. */
  lemma NoWayThrough(payload: Json, path: seq<Hop>, key: string, rest: seq<Hop>)
    requires At(payload, path).None? || !At(payload, path).value.Obj?
    ensures At(payload, path + [Key(key)] + rest).None?
  {
    AtJoin(payload, path, [Key(key)] + rest);
    assert path + [Key(key)] + rest == path + ([Key(key)] + rest);
    if At(payload, path).Some? {
      Steps(At(payload, path).value, Key(key), rest);
    }
  }

  /** The value at a place, if everything on the way to it and the value itself are objects. */
  function ValueOf(payload: Json, p: Place): Option<(Json, Json)>
    requires IsPlace(p)
  {
    var entry := Item(payload, "entry", p[0]);
    if entry.None? then None else
    var change := Item(entry.value, "changes", p[1]);
    if change.None? then None else
    var value := ObjectAt(change.value, "value");
    if value.None? then None else Some((entry.value, value.value))
  }

  lemma ValueIsAt(payload: Json, p: Place)
    requires IsPlace(p)
    ensures var found := At(payload, ValuePath(p));
      ValueOf(payload, p).Some? <==> found.Some? && found.value.Obj?
    ensures ValueOf(payload, p).Some? ==>
      && At(payload, EntryPath(p)) == Some(ValueOf(payload, p).value.0) && ValueOf(payload, p).value.0.Obj?
      && At(payload, ValuePath(p)) == Some(ValueOf(payload, p).value.1) && ValueOf(payload, p).value.1.Obj?
  {
    var ep := EntryPath(p);
    assert [] + ep == ep;
    ItemIsAt(payload, [], payload, "entry", p[0]);
    var cp := ep + [Key("changes"), Index(p[1])];
    assert ValuePath(p) == cp + [Key("value")];
    var entry := Item(payload, "entry", p[0]);
    if entry.None? {
      assert cp == ep + [Key("changes")] + [Index(p[1])];
      NoWayThrough(payload, ep, "changes", [Index(p[1])]);
      NoWayThrough(payload, cp, "value", []);
      assert cp + [Key("value")] + [] == ValuePath(p);
    } else {
      ItemIsAt(payload, ep, entry.value, "changes", p[1]);
      ValueBelow(payload, cp, Item(entry.value, "changes", p[1]));
    }
  }

  lemma ValueBelow(payload: Json, path: seq<Hop>, change: Option<Json>)
    requires change == if At(payload, path).Some? && At(payload, path).value.Obj? then At(payload, path) else None
    ensures var found := At(payload, path + [Key("value")]);
      if change.None? then found.None?
      else ObjectAt(change.value, "value") == if found.Some? && found.value.Obj? then found else None
  {
    if change.None? {
      NoWayThrough(payload, path, "value", []);
      assert path + [Key("value")] + [] == path + [Key("value")];
    } else {
      AtJoin(payload, path, [Key("value")]);
      AtKey(change.value, "value");
    }
  }

  /** The status or value that holds the error of a place, if it is an object. */
  function NodeOf(value: Json, p: Place): Option<Json>
    requires IsPlace(p)
  {
    if |p| == 4 then Some(value) else Item(value, "statuses", p[3])
  }

  function ContextOf(entry: Json, value: Json, node: Json, p: Place): Contexto
    requires IsPlace(p) && entry.Obj? && value.Obj? && node.Obj?
  {
    Contexto(if |p| == 4 then None else NonEmptyText(Prop(node, "id")), NonEmptyText(Prop(entry, "id")), PidOf(value))
  }

  /** `RecordAt` in these terms. */
  lemma RecordAtUnfolds(payload: Json, p: Place)
    ensures RecordAt(payload, p).Some? ==> IsPlace(p) && ValueOf(payload, p).Some?
    ensures IsPlace(p) && ValueOf(payload, p).Some? ==>
      var (entry, value) := ValueOf(payload, p).value;
      var node := NodeOf(value, p);
      RecordAt(payload, p) == if node.None? then None else ErrorOf(node.value, p[|p| - 1], ContextOf(entry, value, node.value, p))
  {
  }

  /**
   * There is a record for each place with an object at its path into the errors, and for no other;
   * and its fields are what stands at their paths.
   */
  lemma RecordsByPath(payload: Json, p: Place)
    ensures RecordAt(payload, p).Some? <==>
      IsPlace(p) && At(payload, ErrorPath(p)).Some? && At(payload, ErrorPath(p)).value.Obj?
    ensures RecordAt(payload, p).Some? ==> RecordTells(payload, p, RecordAt(payload, p).value)
  {
    RecordAtUnfolds(payload, p);
    if IsPlace(p) {
      ValueIsAt(payload, p);
      if ValueOf(payload, p).None? {
        NothingBelow(payload, p);
      } else {
        var (entry, value) := ValueOf(payload, p).value;
        var n := p[|p| - 1];
        if |p| == 5 {
          ItemIsAt(payload, ValuePath(p), value, "statuses", p[3]);
        }
        var node := NodeOf(value, p);
        if node.None? {
          NoWayThrough(payload, NodePath(p), "errors", [Index(n)]);
          assert NodePath(p) + [Key("errors")] + [Index(n)] == ErrorPath(p);
        } else {
          assert At(payload, NodePath(p)) == node && node.value.Obj?;
          ItemIsAt(payload, NodePath(p), node.value, "errors", n);
          if RecordAt(payload, p).Some? {
            TextAtKey(payload, EntryPath(p), entry, "id");
            TextBelowKey(payload, ValuePath(p), value, "metadata", "phone_number_id");
            TextAtKey(payload, NodePath(p), node.value, "id");
            ErrorTells(payload, ErrorPath(p), Item(node.value, "errors", n).value);
          }
        }
      }
    }
  }

  lemma NothingBelow(payload: Json, p: Place)
    requires IsPlace(p) && (At(payload, ValuePath(p)).None? || !At(payload, ValuePath(p)).value.Obj?)
    ensures At(payload, ErrorPath(p)).None?
  {
    var n := Index(p[|p| - 1]);
    if |p| == 4 {
      NoWayThrough(payload, ValuePath(p), "errors", [n]);
      assert ValuePath(p) + [Key("errors")] + [n] == ErrorPath(p);
    } else {
      var rest := [Index(p[3]), Key("errors"), n];
      NoWayThrough(payload, ValuePath(p), "statuses", rest);
      assert ValuePath(p) + [Key("statuses")] + rest == ErrorPath(p);
    }
  }

  /** Some error stands at the place: its path leads to an object. */
  predicate HasError(payload: Json, p: Place)
  {
    IsPlace(p) && At(payload, ErrorPath(p)).Some? && At(payload, ErrorPath(p)).value.Obj?
  }

  /**
   * The records and their places: in document order, one for each place that has an error and none
   * besides, each field as it stands in the payload.
   */
  ghost predicate RecordsOf(payload: Json, items: Items)
  {
    && InOrder(items)
    && (forall i :: 0 <= i < |items| ==> HasError(payload, items[i].0) && RecordTells(payload, items[i].0, items[i].1))
    && (forall p :: HasError(payload, p) ==> exists i :: 0 <= i < |items| && items[i].0 == p)
  }

  lemma PayloadRecords(payload: Json)
    requires !payload.Null?
    ensures RecordsOf(payload, OfPayload(payload))
  {
    var items := OfPayload(payload);
    forall i | 0 <= i < |items| ensures HasError(payload, items[i].0) && RecordTells(payload, items[i].0, items[i].1) {
      assert (items[i].0, items[i].1) in items;
      OneRecordPerError(payload, items[i].0, items[i].1);
      RecordsByPath(payload, items[i].0);
    }
    forall p | HasError(payload, p) ensures exists i :: 0 <= i < |items| && items[i].0 == p {
      RecordsByPath(payload, p);
      OneRecordPerError(payload, p, RecordAt(payload, p).value);
      var i :| 0 <= i < |items| && items[i] == (p, RecordAt(payload, p).value);
      assert items[i].0 == p;
    }
    OneRecordPerError(payload, [], ErroDeWebhook(None, None, "", Null, None, None));
  }

  // --- The loops ------------------------------------------------------------------------------

  /** The records of the first `n` children. */
  function Flat(children: seq<Items>, n: nat): seq<ErroDeWebhook>
    requires n <= |children|
  {
    if n == 0 then [] else Flat(children, n - 1) + Records(children[n - 1])
  }

  lemma {:induction false} FlatIsTogether(children: seq<Items>, n: nat)
    requires n <= |children|
    ensures Flat(children, n) == Records(Together(children[..n]))
  {
    if n > 0 {
      FlatIsTogether(children, n - 1);
      assert children[..n][..n - 1] == children[..n - 1];
    }
  }

  lemma FlatAll(children: seq<Items>)
    ensures Flat(children, |children|) == Records(Together(children))
  {
    FlatIsTogether(children, |children|);
    assert children[..|children|] == children;
  }

  lemma BothTogether(a: Items, b: Items)
    ensures Records(Together([a, b])) == Records(a) + Records(b)
  {
    FlatAll([a, b]);
    assert Flat([a, b], 0) == [] && Flat([a, b], 1) == Records(a);
  }

  lemma ValueRecords(value: Json, wabaId: Option<string>, was: seq<ErroDeWebhook>)
    requires value.Obj?
    ensures was + Records(OfStatuses(value, wabaId)) + Records(OfNode(value, Contexto(None, wabaId, PidOf(value))))
         == was + Records(OfValue(value, wabaId))
  {
    BothTogether(OfStatuses(value, wabaId), OfNode(value, Contexto(None, wabaId, PidOf(value))));
  }

  lemma FlatNext(children: seq<Items>, n: nat, items: Items, was: seq<ErroDeWebhook>, now: seq<ErroDeWebhook>)
    requires n < |children| && children[n] == items && now == was + Flat(children, n) + Records(items)
    ensures now == was + Flat(children, n + 1)
  {
  }

  /** The list the loops push into. */
  class Saida {
    var itens: seq<ErroDeWebhook>

    constructor ()
      ensures itens == []
    {
      itens := [];
    }

    method ColetarErros(node: Json, c: Contexto)
      requires node.Obj?
      modifies this
      ensures itens == old(itens) + Records(OfNode(node, c))
    {
      var erros := AsArray(Prop(node, "errors"));
      if erros.None? {
        return;
      }
      ghost var children := seq(|erros.value|, i requires 0 <= i < |erros.value| => OfError(erros.value[i], node, c));
      for n := 0 to |erros.value|
        invariant itens == old(itens) + Flat(children, n)
      {
        var bruto := erros.value[n];
        assert children[n] == OfError(bruto, node, c);
        ghost var was := itens;
        if bruto.Obj? {
          itens := itens + [Record(bruto, node, c)];
        }
        assert itens == was + Records(children[n]);
        FlatNext(children, n, children[n], old(itens), itens);
      }
      FlatAll(children);
    }

    method ColetarStatuses(statuses: seq<Json>, wabaId: Option<string>, pid: Option<string>, ghost children: seq<Items>)
      requires |children| == |statuses| && forall n {:trigger OfStatus(statuses[n], wabaId, pid)} :: 0 <= n < |statuses| ==> children[n] == OfStatus(statuses[n], wabaId, pid)
      modifies this
      ensures itens == old(itens) + Records(Together(children))
    {
      for n := 0 to |statuses|
        invariant itens == old(itens) + Flat(children, n)
      {
        ColetarStatus(statuses[n], wabaId, pid, children[n]);
        FlatNext(children, n, children[n], old(itens), itens);
      }
      FlatAll(children);
    }

    method ColetarStatus(status: Json, wabaId: Option<string>, pid: Option<string>, ghost items: Items)
      requires items == OfStatus(status, wabaId, pid)
      modifies this
      ensures itens == old(itens) + Records(items)
    {
      if status.Obj? {
        ColetarErros(status, Contexto(NonEmptyText(Prop(status, "id")), wabaId, pid));
      }
    }

    method ColetarChanges(changes: seq<Json>, wabaId: Option<string>, ghost children: seq<Items>)
      requires |children| == |changes| && forall n {:trigger OfChange(changes[n], wabaId)} :: 0 <= n < |changes| ==> children[n] == OfChange(changes[n], wabaId)
      modifies this
      ensures itens == old(itens) + Records(Together(children))
    {
      for n := 0 to |changes|
        invariant itens == old(itens) + Flat(children, n)
      {
        ColetarChange(changes[n], wabaId, children[n]);
        FlatNext(children, n, children[n], old(itens), itens);
      }
      FlatAll(children);
    }

    method ColetarChange(change: Json, wabaId: Option<string>, ghost items: Items)
      requires items == OfChange(change, wabaId)
      modifies this
      ensures itens == old(itens) + Records(items)
    {
      if !change.Obj? {
        return;
      }
      var value := ObjectAt(change, "value");
      if value.None? {
        return;
      }
      ColetarValue(value.value, wabaId);
    }

    method ColetarValue(value: Json, wabaId: Option<string>)
      requires value.Obj?
      modifies this
      ensures itens == old(itens) + Records(OfValue(value, wabaId))
    {
      var pid := PidOf(value);
      ValueRecords(value, wabaId, itens);
      var statuses := AsArray(Prop(value, "statuses"));
      if statuses.Some? {
        ghost var children := seq(|statuses.value|, i requires 0 <= i < |statuses.value| => OfStatus(statuses.value[i], wabaId, pid));
        ColetarStatuses(statuses.value, wabaId, pid, children);
      }
      ColetarErros(value, Contexto(None, wabaId, pid));
    }

    method ColetarEntry(entry: Json, ghost items: Items)
      requires items == OfEntry(entry)
      modifies this
      ensures itens == old(itens) + Records(items)
    {
      if !entry.Obj? {
        return;
      }
      var wabaId := NonEmptyText(Prop(entry, "id"));
      var changes := AsArray(Prop(entry, "changes"));
      if changes.None? {
        return;
      }
      ghost var children := seq(|changes.value|, i requires 0 <= i < |changes.value| => OfChange(changes.value[i], wabaId));
      ColetarChanges(changes.value, wabaId, children);
    }

    method ColetarEntries(entries: seq<Json>, ghost children: seq<Items>)
      requires AreOfEntries(entries, children)
      modifies this
      ensures itens == old(itens) + Records(Together(children))
    {
      for n := 0 to |entries|
        invariant itens == old(itens) + Flat(children, n)
      {
        ColetarEntryAt(entries, n, children, old(itens));
      }
      FlatAll(children);
    }

    method ColetarEntryAt(entries: seq<Json>, n: nat, ghost children: seq<Items>, ghost was: seq<ErroDeWebhook>)
      requires AreOfEntries(entries, children) && n < |entries| && itens == was + Flat(children, n)
      modifies this
      ensures itens == was + Flat(children, n + 1)
    {
      ColetarEntry(entries[n], children[n]);
      FlatNext(children, n, children[n], was, itens);
    }
  }

  ghost predicate AreOfEntries(entries: seq<Json>, children: seq<Items>)
  {
    |children| == |entries| && forall n {:trigger OfEntry(entries[n])} :: 0 <= n < |entries| ==> children[n] == OfEntry(entries[n])
  }

  /** The extractor: its list is the records of the errors in the payload. Only `null` makes it throw. */
  method ExtrairErrosDeWebhook(payload: Json) returns (threw: bool, erros: seq<ErroDeWebhook>)
    ensures threw <==> payload.Null?
    ensures !threw ==> erros == Records(OfPayload(payload))
    ensures !threw ==> exists items: Items :: RecordsOf(payload, items) && erros == Records(items)
  {
    if payload.Null? {
      return true, [];
    }
    threw := false;
    PayloadRecords(payload);
    var saida := new Saida();
    var entries := AsArray(Prop(payload, "entry"));
    if entries.None? {
      return false, saida.itens;
    }
    ghost var children := seq(|entries.value|, i requires 0 <= i < |entries.value| => OfEntry(entries.value[i]));
    saida.ColetarEntries(entries.value, children);
    erros := saida.itens;
  }
}
