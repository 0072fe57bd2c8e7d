/** The three independently written readers of a webhook payload. */
module Payload {
  import opened Common
  import opened Json

  // --- src/webhook/webhook.service.ts -------------------------------------------------------

  /** `entry[0] ?? null` when `entry` is a non-empty array. */
  function FirstEntry(payload: Json): Option<Json>
    requires !payload.Null?
  {
    var entry := AsArray(Prop(payload, "entry"));
    if entry.None? || entry.value == [] || entry.value[0].Null? then None else Some(entry.value[0])
  }

  function ExtractPid(payload: Json): Option<string>
    requires !payload.Null?
  {
    var first := FirstEntry(payload);
    if first.None? then None else PidOfEntry(first.value)
  }

  /** `extractPid` from the first entry on. */
  function PidOfEntry(first: Json): Option<string>
  {
    if !Truthy(Some(first)) then None else
    var changes := AsArray(Prop(first, "changes"));
    if changes.None? || changes.value == [] then None else
    PidOfChange(changes.value[0])
  }

  /** `extractPid` from the first change on. */
  function PidOfChange(change: Json): Option<string>
  {
    if !Truthy(Some(change)) then None else
    var value := Prop(change, "value");
    if !Truthy(value) then None else
    var metadata := Prop(value.value, "metadata");
    if !Truthy(metadata) then None else
    NonEmptyText(Prop(metadata.value, "phone_number_id"))
  }

  function ExtractWabaId(payload: Json): Option<string>
    requires !payload.Null?
  {
    var first := FirstEntry(payload);
    if !Truthy(first) then None else NonEmptyText(Prop(first.value, "id"))
  }

  // --- src/redirecionamentos-webhooks/redirecionamentos-webhooks.service.ts -----------------

  function RedirectExtractPid(payload: Json): Option<string>
    requires !payload.Null?
  {
    var entry := AsArray(Prop(payload, "entry"));
    if entry.None? || entry.value == [] then None else
    var first := entry.value[0];
    if !Truthy(Some(first)) then None else
    var changes := AsArray(Prop(first, "changes"));
    if changes.None? || changes.value == [] then None else
    var change := changes.value[0];
    if !Truthy(Some(change)) then None else
    var value := Prop(change, "value");
    if !Truthy(value) then None else
    var metadata := Prop(value.value, "metadata");
    if !Truthy(metadata) then None else
    NonEmptyText(Prop(metadata.value, "phone_number_id"))
  }

  // --- src/instagram-webhook/instagram-webhook.service.ts -----------------------------------

  /** `body?.entry`, `first?.id`: optional chaining, so a null body is read without throwing. */
  function InstagramExtractPid(body: Json): Option<string>
  {
    if body.Null? then None else
    var entry := AsArray(Prop(body, "entry"));
    if entry.None? || entry.value == [] then None else
    var first := entry.value[0];
    if first.Null? then None else NonEmptyText(Prop(first, "id"))
  }

  // --- What the readers mean -----------------------------------------------------------------

  /** `path` read one step at a time through objects and array elements. */
  datatype Hop = Key(name: string) | Index(n: nat)

  function At(v: Json, path: seq<Hop>): Option<Json>
  {
    if path == [] then Some(v) else
    match path[0]
    case Key(name) => if v.Obj? && name in v.fields then At(v.fields[name], path[1..]) else None
    case Index(n) => if v.Arr? && n < |v.items| then At(v.items[n], path[1..]) else None
  }

  const PID_PATH: seq<Hop> :=
    [Key("entry"), Index(0), Key("changes"), Index(0), Key("value"), Key("metadata"), Key("phone_number_id")]

  const WABA_PATH: seq<Hop> := [Key("entry"), Index(0), Key("id")]

  /** The guards and fallbacks of every reader amount to one path lookup, on every JSON value. */
  lemma ReadersFollowTheirPaths(payload: Json)
    requires !payload.Null?
    ensures ExtractPid(payload) == NonEmptyText(At(payload, PID_PATH))
    ensures RedirectExtractPid(payload) == NonEmptyText(At(payload, PID_PATH))
    ensures ExtractWabaId(payload) == NonEmptyText(At(payload, WABA_PATH))
    ensures InstagramExtractPid(payload) == NonEmptyText(At(payload, WABA_PATH))
  {
    PidUnfold(payload);
    WabaUnfold(payload);
  }

  lemma Steps(v: Json, hop: Hop, rest: seq<Hop>)
    ensures At(v, [hop] + rest) ==
      match hop
      case Key(name) => (if v.Obj? && name in v.fields then At(v.fields[name], rest) else None)
      case Index(n) => (if v.Arr? && n < |v.items| then At(v.items[n], rest) else None)
  {
    assert ([hop] + rest)[1..] == rest;
  }

  lemma WabaUnfold(payload: Json)
    requires !payload.Null?
    ensures ExtractWabaId(payload) == NonEmptyText(At(payload, WABA_PATH))
    ensures InstagramExtractPid(payload) == NonEmptyText(At(payload, WABA_PATH))
  {
    assert WABA_PATH == [Key("entry")] + [Index(0), Key("id")];
    Steps(payload, Key("entry"), [Index(0), Key("id")]);
    var entry := Prop(payload, "entry");
    if AsArray(entry).Some? && entry.value.items != [] {
      var first := entry.value.items[0];
      assert [Index(0), Key("id")] == [Index(0)] + [Key("id")];
      Steps(entry.value, Index(0), [Key("id")]);
      assert [Key("id")] == [Key("id")] + [];
      Steps(first, Key("id"), []);
    } else if entry.Some? {
      assert [Index(0), Key("id")] == [Index(0)] + [Key("id")];
      Steps(entry.value, Index(0), [Key("id")]);
    }
  }

  lemma PidUnfold(payload: Json)
    requires !payload.Null?
    ensures ExtractPid(payload) == NonEmptyText(At(payload, PID_PATH))
    ensures RedirectExtractPid(payload) == NonEmptyText(At(payload, PID_PATH))
  {
    var p1 := PID_PATH[1..];
    var p2 := PID_PATH[2..];
    assert PID_PATH == [Key("entry")] + p1 && p1 == [Index(0)] + p2;
    Steps(payload, Key("entry"), p1);
    var entry := Prop(payload, "entry");
    if entry.Some? {
      Steps(entry.value, Index(0), p2);
      if entry.value.Arr? && entry.value.items != [] {
        EntryUnfold(entry.value.items[0]);
      }
    }
  }

  lemma EntryUnfold(first: Json)
    ensures PidOfEntry(first) == NonEmptyText(At(first, PID_PATH[2..]))
  {
    var p2, p3, p4 := PID_PATH[2..], PID_PATH[3..], PID_PATH[4..];
    assert p2 == [Key("changes")] + p3 && p3 == [Index(0)] + p4;
    Steps(first, Key("changes"), p3);
    if first.Obj? && "changes" in first.fields {
      var changes := first.fields["changes"];
      Steps(changes, Index(0), p4);
      if changes.Arr? && changes.items != [] {
        ChangeUnfold(changes.items[0]);
      }
    }
  }

  lemma ChangeUnfold(change: Json)
    ensures PidOfChange(change) == NonEmptyText(At(change, PID_PATH[4..]))
  {
    var p4, p5, p6 := PID_PATH[4..], PID_PATH[5..], PID_PATH[6..];
    assert p4 == [Key("value")] + p5 && p5 == [Key("metadata")] + p6 && p6 == [Key("phone_number_id")] + [];
    Steps(change, Key("value"), p5);
    if change.Obj? && "value" in change.fields {
      var value := change.fields["value"];
      Steps(value, Key("metadata"), p6);
      if value.Obj? && "metadata" in value.fields {
        Steps(value.fields["metadata"], Key("phone_number_id"), []);
      }
    }
  }
}
