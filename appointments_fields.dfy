/** Packing of an appointment's three free-text fields (description, comment,
    considerations) into the single text column, as a versioned JSON object, and
    their unpacking with a fallback for legacy plain-text values. */
module AppointmentFields {
  import opened Common
  import opened Json

  /** The three free-text fields as `unpack_fields` returns them. */
  datatype Unpacked = Unpacked(description: Value, comment: Value, considerations: Value)

  /** The format version written under `_v`. */
  const Version := 1

  /** The object `pack_fields` hands to `json.dumps`. */
  function PackObject(description: Option<string>, comment: Option<string>, considerations: Option<string>)
    : (m: map<string, Value>)
    ensures m.Keys == {"description", "comment", "considerations", "_v"}
    ensures m["_v"] == Num(Version)
    ensures m["description"].Str? && Truthy(m["description"]) <==> description.Some? && description.value != ""
    ensures !Truthy(m["description"]) ==> m["description"] == Str("")
  {
    map["description" := Or(OfOption(description), Str("")),
        "comment" := OfOption(comment),
        "considerations" := OfOption(considerations),
        "_v" := Num(Version)]
  }

  /** `pack_fields(description, user_comment, considerations)`. */
  function PackFields(codec: Codec, description: Option<string>, comment: Option<string>,
                      considerations: Option<string>): (r: string)
    ensures Lawful(codec) ==> codec.loads(r) == Some(Obj(PackObject(description, comment, considerations)))
    ensures Lawful(codec) ==> r != "" && '\n' !in r
  {
    codec.dumps(Obj(PackObject(description, comment, considerations)))
  }

  /** The value `unpack_fields` returns for a missing, empty or unrecognised column. */
  function Legacy(raw: string): Unpacked {
    Unpacked(Str(""), Str(raw), Null)
  }

  /** `unpack_fields(raw_comment)`: a JSON object with a `description` key is read as packed
      fields; anything else that is non-empty is a legacy plain-text comment. */
  function UnpackFields(codec: Codec, raw: Option<string>): (u: Unpacked)
    ensures u.description.Str? || Truthy(u.description)
  {
    if raw.None? || raw.value == "" then Unpacked(Str(""), Null, Null)
    else match codec.loads(raw.value)
      case Some(Obj(m)) =>
        if "description" in m
        then Unpacked(Or(m["description"], Str("")), Get(m, "comment"), Get(m, "considerations"))
        else Legacy(raw.value)
      case _ => Legacy(raw.value)
  }

  /** Unpacking what was packed gives back the three fields, with a missing or empty
      description read as the empty string. */
  lemma RoundTrip(codec: Codec, description: Option<string>, comment: Option<string>,
                  considerations: Option<string>)
    requires Lawful(codec)
    ensures UnpackFields(codec, Some(PackFields(codec, description, comment, considerations)))
         == Unpacked(Str(if description.Some? then description.value else ""),
                     OfOption(comment), OfOption(considerations))
  {
    var m := PackObject(description, comment, considerations);
    DumpsNonEmpty(codec, Obj(m));
    assert codec.loads(codec.dumps(Obj(m))) == Some(Obj(m));
  }

  /** A packed column always parses to an object tagged with version 1. */
  lemma PackedIsVersioned(codec: Codec, description: Option<string>, comment: Option<string>,
                          considerations: Option<string>)
    requires Lawful(codec)
    ensures codec.loads(PackFields(codec, description, comment, considerations)).Some?
    ensures var v := codec.loads(PackFields(codec, description, comment, considerations)).value;
            v.Obj? && "_v" in v.fields && v.fields["_v"] == Num(1)
  {
    var m := PackObject(description, comment, considerations);
    assert codec.loads(codec.dumps(Obj(m))) == Some(Obj(m));
  }

  /** A missing or empty column unpacks to an empty description and nothing else. */
  lemma EmptyColumn(codec: Codec, raw: Option<string>)
    requires raw.None? || raw.value == ""
    ensures UnpackFields(codec, raw) == Unpacked(Str(""), Null, Null)
  {
  }

  /** Text that is not JSON, JSON that is not an object, and an object without a
      `description` key all take the legacy path: the whole text becomes the comment. */
  lemma LegacyFallback(codec: Codec, raw: string)
    requires raw != ""
    requires match codec.loads(raw)
               case Some(Obj(m)) => "description" !in m
               case _ => true
    ensures UnpackFields(codec, Some(raw)) == Unpacked(Str(""), Str(raw), Null)
  {
  }

  /** A stored description that is null or empty is read back as "". */
  lemma NullDescriptionNormalised(codec: Codec, raw: string, m: map<string, Value>)
    requires raw != "" && codec.loads(raw) == Some(Obj(m))
    requires "description" in m && !Truthy(m["description"])
    ensures UnpackFields(codec, Some(raw)).description == Str("")
  {
  }
}
