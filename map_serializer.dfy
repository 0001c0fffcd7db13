/**
 * The three JSON dialects of map_serializer.cpp: the editor dialect (mapToJson and
 * its decoder jsonToMap), the server level and the client level. Text parsing and
 * printing are outside the model: a document is its parsed Json value, and a text
 * that does not parse is `None`.
 */
module MapSerializer {
  import opened Wrappers
  import opened JsonValues
  import opened Text
  import opened Entities
  import opened Assets
  import opened MapDocument
  import opened TypeRefs

  /** What reading each configuration path yields: `None` when it cannot be opened or parsed. */
  type ConfigFiles = string -> Option<Json>

  // ---------------------------------------------------------------------------
  // Editor dialect: encoding

  /** The `game` value written: the document's config path, or the default for an empty one. */
  function EditorGameConfig(m: MapData): string
  {
    if m.gameConfigPath == "" then DefaultGameConfigPath else m.gameConfigPath
  }

  /** The `map` block. Members are listed in key order, as the std::map of an object keeps them. */
  function MetaJson(m: MapData): (j: Json)
    ensures j.JObject?
    ensures Member(j, "backgroundName") == Some(JString(m.backgroundName))
    ensures Member(j, "backgroundRepeatCount") == Some(JInt(m.backgroundRepeatCount))
    ensures Member(j, "height") == Some(JInt(m.height))
    ensures Member(j, "id") == Some(JInt(m.id))
    ensures Member(j, "scrollSpeed") == Some(JFloat(m.scrollSpeed))
    ensures Member(j, "width") == Some(JInt(m.width))
  {
    var ms := [
      ("backgroundName", JString(m.backgroundName)),
      ("backgroundRepeatCount", JInt(m.backgroundRepeatCount)),
      ("height", JInt(m.height)),
      ("id", JInt(m.id)),
      ("scrollSpeed", JFloat(m.scrollSpeed)),
      ("width", JInt(m.width))];
    LookupAt(ms, "backgroundName", 0);
    LookupAt(ms, "backgroundRepeatCount", 1);
    LookupAt(ms, "height", 2);
    LookupAt(ms, "id", 3);
    LookupAt(ms, "scrollSpeed", 4);
    LookupAt(ms, "width", 5);
    JObject(ms)
  }

  /** The informational `ref` of a wave: the registry's, or the entity id for an unknown type. */
  function EditorRef(e: EntityData, refs: map<string, int>): int
  {
    if e.typeName in refs then refs[e.typeName] else e.id
  }

  /** One wave record: the type name, the ref, and the position. */
  function WaveJson(e: EntityData, refs: map<string, int>): (j: Json)
    ensures j.JObject?
    ensures Member(j, "name") == Some(JString(e.typeName))
    ensures Member(j, "ref") == Some(JInt(EditorRef(e, refs)))
    ensures Member(j, "x") == Some(JFloat(e.x))
    ensures Member(j, "y") == Some(JFloat(e.y))
  {
    var ms := [("name", JString(e.typeName)), ("ref", JInt(EditorRef(e, refs))), ("x", JFloat(e.x)), ("y", JFloat(e.y))];
    LookupAt(ms, "name", 0);
    LookupAt(ms, "ref", 1);
    LookupAt(ms, "x", 2);
    LookupAt(ms, "y", 3);
    JObject(ms)
  }

  function WavesJson(es: seq<EntityData>, refs: map<string, int>): seq<Json>
  {
    seq(|es|, k requires 0 <= k < |es| => WaveJson(es[k], refs))
  }

  /** The editor document of `m` when the registry of its game configuration is `refs`. */
  function EditorJson(m: MapData, refs: map<string, int>): (j: Json)
    ensures j.JObject?
    ensures Member(j, "game") == Some(JString(EditorGameConfig(m)))
    ensures Member(j, "map") == Some(MetaJson(m))
    ensures Member(j, "waves") == Some(JArray(WavesJson(m.entities, refs)))
  {
    var ms := [("game", JString(EditorGameConfig(m))), ("map", MetaJson(m)), ("waves", JArray(WavesJson(m.entities, refs)))];
    LookupAt(ms, "game", 0);
    LookupAt(ms, "map", 1);
    LookupAt(ms, "waves", 2);
    JObject(ms)
  }

  /** `mapToJson`, up to printing the text. */
  method MapToJson(m: MapData, configAt: ConfigFiles) returns (j: Json)
    ensures j == EditorJson(m, TypeRefsOf(configAt(EditorGameConfig(m))))
  {
    var gameConfig := if m.gameConfigPath == "" then DefaultGameConfigPath else m.gameConfigPath;
    var meta := MetaJson(m);
    var typeRefs := LoadTypeRefs(configAt(gameConfig));
    var waves: seq<Json> := [];
    var i := 0;
    while i < |m.entities|
      invariant 0 <= i <= |m.entities|
      invariant waves == WavesJson(m.entities[..i], typeRefs)
    {
      waves := waves + [WaveJson(m.entities[i], typeRefs)];
      i := i + 1;
    }
    assert m.entities[..i] == m.entities;
    j := JObject([("game", JString(gameConfig)), ("map", meta), ("waves", JArray(waves))]);
  }

  /**
   * The editor document has one wave per entity, in entity order, carrying the
   * entity's position and type name and the registry ref, or the id for an unknown
   * type; an empty config path is written as the default one.
   */
  lemma EditorWaves(m: MapData, refs: map<string, int>)
    ensures Member(EditorJson(m, refs), "game") == Some(JString(EditorGameConfig(m)))
    ensures m.gameConfigPath == "" ==> EditorGameConfig(m) == DefaultGameConfigPath == DefaultMap.gameConfigPath
    ensures HasArray(EditorJson(m, refs), "waves")
    ensures var ws := Member(EditorJson(m, refs), "waves").value.items;
      && |ws| == |m.entities|
      && forall k :: 0 <= k < |ws| ==>
           && Member(ws[k], "name") == Some(JString(m.entities[k].typeName))
           && Member(ws[k], "x") == Some(JFloat(m.entities[k].x))
           && Member(ws[k], "y") == Some(JFloat(m.entities[k].y))
           && Member(ws[k], "ref") == Some(JInt(if m.entities[k].typeName in refs then refs[m.entities[k].typeName]
                                               else m.entities[k].id))
  {
  }

  // ---------------------------------------------------------------------------
  // Editor dialect: decoding

  /** A document decoded up to an exception (`complete == false`) or to the end. */
  datatype Partial = Partial(m: MapData, complete: bool)

  /** The `map` block, read field by field; a member of the wrong type throws. */
  function DecodeMeta(meta: Json, m: MapData): (r: Partial)
    ensures r.m.gameConfigPath == m.gameConfigPath && r.m.entities == m.entities && r.m.assets == m.assets
  {
    match ValueInt(meta, "id", m.id)
    case None => Partial(m, false)
    case Some(id) =>
      var m1 := m.(id := id);
      match ValueFloat(meta, "scrollSpeed", m1.scrollSpeed)
      case None => Partial(m1, false)
      case Some(speed) =>
        var m2 := m1.(scrollSpeed := speed);
        match ValueInt(meta, "width", m2.width)
        case None => Partial(m2, false)
        case Some(width) =>
          var m3 := m2.(width := width);
          match ValueInt(meta, "height", m3.height)
          case None => Partial(m3, false)
          case Some(height) =>
            var m4 := m3.(height := height);
            match ValueString(meta, "backgroundName", m4.backgroundName)
            case None => Partial(m4, false)
            case Some(name) =>
              var m5 := m4.(backgroundName := name);
              match ValueInt(meta, "backgroundRepeatCount", m5.backgroundRepeatCount)
              case None => Partial(m5, false)
              case Some(count) => Partial(m5.(backgroundRepeatCount := count), true)
  }

  /** Without a `map` object only the top-level `width` and `height` are read. */
  function DecodeSize(j: Json, m: MapData): (r: Partial)
    ensures r.m == m.(width := r.m.width, height := r.m.height)
  {
    match ValueInt(j, "width", m.width)
    case None => Partial(m, false)
    case Some(width) =>
      var m1 := m.(width := width);
      match ValueInt(j, "height", m1.height)
      case None => Partial(m1, false)
      case Some(height) => Partial(m1.(height := height), true)
  }

  /** The `game` path and the metadata, starting from a default document. */
  function DecodeHeader(j: Json): (r: Partial)
    ensures r.m.entities == [] && r.m.assets == map[]
  {
    match ValueString(j, "game", DefaultMap.gameConfigPath)
    case None => Partial(DefaultMap, false)
    case Some(game) =>
      var m := DefaultMap.(gameConfigPath := game);
      if HasObject(j, "map") then DecodeMeta(Member(j, "map").value, m) else DecodeSize(j, m)
  }

  /** The placeholder type of a ref that the inverse registry does not know, or its name. */
  function ResolveRef(ref: int, inverse: map<int, string>): (t: string)
    ensures ref in inverse ==> t in inverse.Values
    ensures ref !in inverse ==> |t| >= 8 && t[..8] == "UNKNOWN_" && t[8..] == IntToString(ref)
  {
    if ref in inverse then inverse[ref] else "UNKNOWN_" + IntToString(ref)
  }

  /** One record of the wave shape; `None` where reading it throws. */
  function DecodeWave(w: Json, id: int, inverse: map<int, string>): (r: Option<EntityData>)
    ensures r.Some? ==> r.value.id == id
    ensures !w.JObject? ==> r.None?
  {
    match ValueFloat(w, "x", 0.0)
    case None => None
    case Some(x) =>
      match ValueFloat(w, "y", 0.0)
      case None => None
      case Some(y) =>
        if Member(w, "name").Some? && Member(w, "name").value.JString? then
          Some(EntityData(id, Member(w, "name").value.s, x, y))
        else
          match ValueInt(w, "ref", NoRef)
          case None => None
          case Some(ref) => Some(EntityData(id, ResolveRef(ref, inverse), x, y))
  }

  /** The waves decoded in file order with ids from `firstId` on, up to the first that throws. */
  function DecodeWaves(ws: seq<Json>, firstId: int, inverse: map<int, string>): seq<EntityData>
  {
    if |ws| == 0 then []
    else match DecodeWave(ws[0], firstId, inverse)
      case None => []
      case Some(e) => [e] + DecodeWaves(ws[1..], firstId + 1, inverse)
  }

  /** One record of the legacy shape: every field verbatim, with the `EntityData` defaults. */
  function DecodeLegacyEntity(e: Json): (r: Option<EntityData>)
    ensures !e.JObject? ==> r.None?
    ensures e == JObject([]) ==> r == Some(DefaultEntity)
  {
    match ValueInt(e, "id", DefaultEntity.id)
    case None => None
    case Some(id) =>
      match ValueString(e, "type", DefaultEntity.typeName)
      case None => None
      case Some(t) =>
        match ValueFloat(e, "x", DefaultEntity.x)
        case None => None
        case Some(x) =>
          match ValueFloat(e, "y", DefaultEntity.y)
          case None => None
          case Some(y) => Some(EntityData(id, t, x, y))
  }

  function DecodeLegacy(es: seq<Json>): seq<EntityData>
  {
    if |es| == 0 then []
    else match DecodeLegacyEntity(es[0])
      case None => []
      case Some(e) => [e] + DecodeLegacy(es[1..])
  }

  /** A `waves` array takes precedence over an `entities` array. */
  function DecodeEntities(j: Json, inverse: map<int, string>): seq<EntityData>
  {
    if HasArray(j, "waves") then DecodeWaves(Member(j, "waves").value.items, 0, inverse)
    else if HasArray(j, "entities") then DecodeLegacy(Member(j, "entities").value.items)
    else []
  }

  /** The document jsonToMap returns for a parsed text (`None`: the text does not parse). */
  ghost function DecodeEditor(text: Option<Json>, configAt: ConfigFiles): MapData
  {
    match text
    case None => DefaultMap
    case Some(j) =>
      var h := DecodeHeader(j);
      if !h.complete then h.m
      else h.m.(entities := DecodeEntities(j, InverseOf(TypeRefsOf(configAt(h.m.gameConfigPath)))))
  }

  /**
   * `jsonToMap`. The document is declared before the `try`, so an exception returns
   * what has been filled in so far.
   */
  method JsonToMap(text: Option<Json>, configAt: ConfigFiles) returns (m: MapData)
    ensures m == DecodeEditor(text, configAt)
  {
    m := DefaultMap;
    if text.None? {
      return;
    }
    var j := text.value;
    var header := DecodeHeader(j);
    m := header.m;
    if !header.complete {
      return;
    }
    var typeRefs := LoadTypeRefs(configAt(m.gameConfigPath));
    var refToType, _ := InvertTypeRefs(typeRefs);
    if HasArray(j, "waves") {
      var entities := ReadWaves(Member(j, "waves").value.items, refToType);
      m := m.(entities := entities);
    } else if HasArray(j, "entities") {
      var entities := ReadLegacy(Member(j, "entities").value.items);
      m := m.(entities := entities);
    }
  }

  /** The wave loop of `jsonToMap`: ids count from 0, and an exception ends the loop. */
  method ReadWaves(ws: seq<Json>, refToType: map<int, string>) returns (entities: seq<EntityData>)
    ensures entities == DecodeWaves(ws, 0, refToType)
  {
    entities := [];
    var nextId := 0;
    var i := 0;
    while i < |ws|
      invariant 0 <= i <= |ws| && nextId == i
      invariant entities + DecodeWaves(ws[i..], nextId, refToType) == DecodeWaves(ws, 0, refToType)
    {
      var entity := DecodeWave(ws[i], nextId, refToType);
      DecodeWavesStep(ws, i, nextId, refToType);
      nextId := nextId + 1;
      if entity.None? {
        return;
      }
      assert (entities + [entity.value]) + DecodeWaves(ws[i + 1..], nextId, refToType)
          == entities + ([entity.value] + DecodeWaves(ws[i + 1..], nextId, refToType));
      entities := entities + [entity.value];
      i := i + 1;
    }
  }

  lemma DecodeWavesStep(ws: seq<Json>, i: nat, id: int, inverse: map<int, string>)
    requires i < |ws|
    ensures DecodeWaves(ws[i..], id, inverse)
         == match DecodeWave(ws[i], id, inverse)
            case None => []
            case Some(e) => [e] + DecodeWaves(ws[i + 1..], id + 1, inverse)
  {
    assert ws[i..][1..] == ws[i + 1..];
  }

  /** The legacy loop of `jsonToMap`: records copied verbatim until one throws. */
  method ReadLegacy(es: seq<Json>) returns (entities: seq<EntityData>)
    ensures entities == DecodeLegacy(es)
  {
    entities := [];
    var i := 0;
    while i < |es|
      invariant 0 <= i <= |es|
      invariant entities + DecodeLegacy(es[i..]) == DecodeLegacy(es)
    {
      var entity := DecodeLegacyEntity(es[i]);
      if entity.None? {
        return;
      }
      assert es[i..][1..] == es[i + 1..];
      assert (entities + [entity.value]) + DecodeLegacy(es[i + 1..]) == entities + ([entity.value] + DecodeLegacy(es[i + 1..]));
      entities := entities + [entity.value];
      i := i + 1;
    }
  }

  // ---------------------------------------------------------------------------
  // Properties of the decoder

  /**
   * The wave shape decodes the longest prefix of records that do not throw, in file
   * order, with ids `firstId`, `firstId + 1`, ...; no record before an exception is dropped.
   */
  lemma {:induction false} DecodeWavesPrefix(ws: seq<Json>, firstId: int, inverse: map<int, string>)
    ensures var r := DecodeWaves(ws, firstId, inverse);
      && |r| <= |ws|
      && (forall k :: 0 <= k < |r| ==> r[k].id == firstId + k && DecodeWave(ws[k], firstId + k, inverse) == Some(r[k]))
      && (|r| < |ws| ==> DecodeWave(ws[|r|], firstId + |r|, inverse).None?)
  {
    if |ws| > 0 {
      var first := DecodeWave(ws[0], firstId, inverse);
      if first.Some? {
        var tail := ws[1..];
        var rest := DecodeWaves(tail, firstId + 1, inverse);
        DecodeWavesPrefix(tail, firstId + 1, inverse);
        var r := DecodeWaves(ws, firstId, inverse);
        assert r == [first.value] + rest;
        forall k | 1 <= k < |r|
          ensures r[k].id == firstId + k && DecodeWave(ws[k], firstId + k, inverse) == Some(r[k])
        {
          assert r[k] == rest[k - 1] && ws[k] == tail[k - 1] && firstId + k == (firstId + 1) + (k - 1);
          assert DecodeWave(ws[k], firstId + k, inverse) == DecodeWave(tail[k - 1], (firstId + 1) + (k - 1), inverse);
        }
        if |r| < |ws| {
          assert ws[|r|] == tail[|rest|];
        }
      }
    }
  }

  /** The legacy shape decodes the longest prefix of records that do not throw, verbatim and in order. */
  lemma {:induction false} DecodeLegacyPrefix(es: seq<Json>)
    ensures var r := DecodeLegacy(es);
      && |r| <= |es|
      && (forall k :: 0 <= k < |r| ==> DecodeLegacyEntity(es[k]) == Some(r[k]))
      && (|r| < |es| ==> DecodeLegacyEntity(es[|r|]).None?)
  {
    if |es| > 0 && DecodeLegacyEntity(es[0]).Some? {
      DecodeLegacyPrefix(es[1..]);
      var r := DecodeLegacy(es);
      assert forall k :: 1 <= k < |r| ==> r[k] == DecodeLegacy(es[1..])[k - 1] && es[k] == es[1..][k - 1];
    }
  }

  /** A legacy record's absent fields take the `EntityData` defaults. */
  lemma LegacyDefaults()
    ensures DecodeLegacyEntity(JObject([])) == Some(DefaultEntity)
    ensures DefaultEntity.id == 0 && DefaultEntity.typeName == "" && DefaultEntity.x == 0.0 && DefaultEntity.y == 0.0
  {
  }

  /**
   * The per-record rules of the wave shape: an absent x or y reads as 0, a present one
   * as its number; a `name` string is the type verbatim; the record throws exactly when
   * a present x or y is not a number, or when it has no `name` string and a present
   * `ref` is not a number.
   */
  lemma WaveRecordRules(ms: seq<(string, Json)>, id: int, inverse: map<int, string>)
    ensures var r := DecodeWave(JObject(ms), id, inverse);
      && (r.None? <==>
            (Lookup(ms, "x").Some? && GetFloat(Lookup(ms, "x").value).None?)
            || (Lookup(ms, "y").Some? && GetFloat(Lookup(ms, "y").value).None?)
            || (!(Lookup(ms, "name").Some? && Lookup(ms, "name").value.JString?)
                && Lookup(ms, "ref").Some? && GetInt(Lookup(ms, "ref").value).None?))
      && (r.Some? && Lookup(ms, "x").None? ==> r.value.x == 0.0)
      && (r.Some? && Lookup(ms, "y").None? ==> r.value.y == 0.0)
      && (r.Some? && Lookup(ms, "x").Some? ==> GetFloat(Lookup(ms, "x").value) == Some(r.value.x))
      && (r.Some? && Lookup(ms, "y").Some? ==> GetFloat(Lookup(ms, "y").value) == Some(r.value.y))
      && (r.Some? && Lookup(ms, "name").Some? && Lookup(ms, "name").value.JString? ==>
            r.value.typeName == Lookup(ms, "name").value.s)
  {
  }

  /** A wave record holding only a name string decodes to that type at the origin. */
  lemma NamedWaveAtOrigin(ms: seq<(string, Json)>, id: int, inverse: map<int, string>, s: string)
    requires Lookup(ms, "name") == Some(JString(s)) && Lookup(ms, "x").None? && Lookup(ms, "y").None?
    ensures DecodeWave(JObject(ms), id, inverse) == Some(EntityData(id, s, 0.0, 0.0))
  {
  }

  /**
   * The per-record rules of the legacy shape: each absent field takes its `EntityData`
   * default, each present one its converted value, and the record throws exactly when
   * a present field has the wrong kind.
   */
  lemma LegacyRecordRules(ms: seq<(string, Json)>)
    ensures var r := DecodeLegacyEntity(JObject(ms));
      && (r.None? <==>
            (Lookup(ms, "id").Some? && GetInt(Lookup(ms, "id").value).None?)
            || (Lookup(ms, "type").Some? && GetString(Lookup(ms, "type").value).None?)
            || (Lookup(ms, "x").Some? && GetFloat(Lookup(ms, "x").value).None?)
            || (Lookup(ms, "y").Some? && GetFloat(Lookup(ms, "y").value).None?))
      && (r.Some? && Lookup(ms, "id").None? ==> r.value.id == DefaultEntity.id)
      && (r.Some? && Lookup(ms, "type").None? ==> r.value.typeName == DefaultEntity.typeName)
      && (r.Some? && Lookup(ms, "x").None? ==> r.value.x == DefaultEntity.x)
      && (r.Some? && Lookup(ms, "y").None? ==> r.value.y == DefaultEntity.y)
      && (r.Some? && Lookup(ms, "id").Some? ==> GetInt(Lookup(ms, "id").value) == Some(r.value.id))
      && (r.Some? && Lookup(ms, "type").Some? ==> GetString(Lookup(ms, "type").value) == Some(r.value.typeName))
      && (r.Some? && Lookup(ms, "x").Some? ==> GetFloat(Lookup(ms, "x").value) == Some(r.value.x))
      && (r.Some? && Lookup(ms, "y").Some? ==> GetFloat(Lookup(ms, "y").value) == Some(r.value.y))
  {
  }

  /** A legacy record whose fields have their natural kinds is copied verbatim. */
  lemma LegacyRecordVerbatim(ms: seq<(string, Json)>, id: int, t: string, x: real, y: real)
    requires Lookup(ms, "id") == Some(JInt(id)) && Lookup(ms, "type") == Some(JString(t))
    requires Lookup(ms, "x") == Some(JFloat(x)) && Lookup(ms, "y") == Some(JFloat(y))
    ensures DecodeLegacyEntity(JObject(ms)) == Some(EntityData(id, t, x, y))
  {
  }

  /** A decoded document never carries an asset registry. */
  lemma DecodedHasNoAssets(text: Option<Json>, configAt: ConfigFiles)
    ensures DecodeEditor(text, configAt).assets == map[]
  {
  }

  /** A `waves` array wins over an `entities` array whatever the latter holds. */
  lemma WavesTakePrecedence(j: Json, inverse: map<int, string>)
    requires HasArray(j, "waves")
    ensures DecodeEntities(j, inverse) == DecodeWaves(Member(j, "waves").value.items, 0, inverse)
  {
  }

  /**
   * A wave without a `name` string resolves its `ref` (-1 when absent) through the
   * inverse registry: a known ref yields the greatest name registered with it, any
   * other a placeholder from which the ref can be read back.
   */
  lemma NamelessWaveType(w: Json, id: int, refs: map<string, int>)
    requires DecodeWave(w, id, InverseOf(refs)).Some?
    requires !(Member(w, "name").Some? && Member(w, "name").value.JString?)
    ensures var t := DecodeWave(w, id, InverseOf(refs)).value.typeName;
      var ref := ValueInt(w, "ref", NoRef).value;
      && (ref in refs.Values ==> t in refs && refs[t] == ref
                                 && forall n :: n in refs && refs[n] == ref && n != t ==> Less(n, t))
      && (ref !in refs.Values ==> t == "UNKNOWN_" + IntToString(ref))
      && (ref !in refs.Values && MinInt32 <= ref <= MaxInt32 ==> Stoi(t[8..]) == Some(ref))
  {
    var ref := ValueInt(w, "ref", NoRef).value;
    InverseOfIsInverse(refs);
    if ref !in refs.Values && MinInt32 <= ref <= MaxInt32 {
      var t := DecodeWave(w, id, InverseOf(refs)).value.typeName;
      assert t[8..] == IntToString(ref);
      StoiIntToString(ref);
    }
  }

  /**
   * Metadata falls back field by field: when the `map` block is read without an
   * exception, every field it lacks keeps its `MapData` default and every field it
   * has is read from it.
   */
  lemma MetaFieldwise(j: Json, meta: seq<(string, Json)>)
    requires Member(j, "map") == Some(JObject(meta))
    requires DecodeHeader(j).complete
    ensures var d := DecodeHeader(j).m;
      && (Lookup(meta, "id").None? ==> d.id == DefaultMap.id)
      && (Lookup(meta, "scrollSpeed").None? ==> d.scrollSpeed == DefaultMap.scrollSpeed)
      && (Lookup(meta, "width").None? ==> d.width == DefaultMap.width)
      && (Lookup(meta, "height").None? ==> d.height == DefaultMap.height)
      && (Lookup(meta, "backgroundName").None? ==> d.backgroundName == DefaultMap.backgroundName)
      && (Lookup(meta, "backgroundRepeatCount").None? ==> d.backgroundRepeatCount == DefaultMap.backgroundRepeatCount)
      && (Lookup(meta, "id").Some? ==> Some(d.id) == GetInt(Lookup(meta, "id").value))
      && (Lookup(meta, "scrollSpeed").Some? ==> Some(d.scrollSpeed) == GetFloat(Lookup(meta, "scrollSpeed").value))
      && (Lookup(meta, "width").Some? ==> Some(d.width) == GetInt(Lookup(meta, "width").value))
      && (Lookup(meta, "height").Some? ==> Some(d.height) == GetInt(Lookup(meta, "height").value))
      && (Lookup(meta, "backgroundName").Some? ==> Some(d.backgroundName) == GetString(Lookup(meta, "backgroundName").value))
      && (Lookup(meta, "backgroundRepeatCount").Some? ==>
            Some(d.backgroundRepeatCount) == GetInt(Lookup(meta, "backgroundRepeatCount").value))
  {
  }

  /** Reading the int member `key` does not throw: it is absent or converts. */
  predicate IntReads(meta: seq<(string, Json)>, key: string)
  {
    Lookup(meta, key).None? || GetInt(Lookup(meta, key).value).Some?
  }

  /** Reading the float member `key` does not throw. */
  predicate FloatReads(meta: seq<(string, Json)>, key: string)
  {
    Lookup(meta, key).None? || GetFloat(Lookup(meta, key).value).Some?
  }

  /** Reading the string member `key` does not throw. */
  predicate StringReads(meta: seq<(string, Json)>, key: string)
  {
    Lookup(meta, key).None? || GetString(Lookup(meta, key).value).Some?
  }

  /**
   * The `map` block with or without an exception. It is read in the order id,
   * scrollSpeed, width, height, backgroundName, backgroundRepeatCount; the header is
   * complete exactly when every read succeeds. A field keeps its `MapData` default
   * when it is absent or when it or an earlier field throws; otherwise it holds the
   * stored value. Fields read before a throw keep what was read.
   */
  lemma MetaPartial(j: Json, meta: seq<(string, Json)>)
    requires Member(j, "map") == Some(JObject(meta))
    ensures var h := DecodeHeader(j);
      var ok0 := j.JObject? && (Lookup(j.members, "game").None? || GetString(Lookup(j.members, "game").value).Some?);
      var ok1 := ok0 && IntReads(meta, "id");
      var ok2 := ok1 && FloatReads(meta, "scrollSpeed");
      var ok3 := ok2 && IntReads(meta, "width");
      var ok4 := ok3 && IntReads(meta, "height");
      var ok5 := ok4 && StringReads(meta, "backgroundName");
      var ok6 := ok5 && IntReads(meta, "backgroundRepeatCount");
      && (h.complete <==> ok6)
      && (Lookup(meta, "id").None? || !ok1 ==> h.m.id == DefaultMap.id)
      && (Lookup(meta, "scrollSpeed").None? || !ok2 ==> h.m.scrollSpeed == DefaultMap.scrollSpeed)
      && (Lookup(meta, "width").None? || !ok3 ==> h.m.width == DefaultMap.width)
      && (Lookup(meta, "height").None? || !ok4 ==> h.m.height == DefaultMap.height)
      && (Lookup(meta, "backgroundName").None? || !ok5 ==> h.m.backgroundName == DefaultMap.backgroundName)
      && (Lookup(meta, "backgroundRepeatCount").None? || !ok6 ==>
            h.m.backgroundRepeatCount == DefaultMap.backgroundRepeatCount)
      && (ok1 && Lookup(meta, "id").Some? ==> Some(h.m.id) == GetInt(Lookup(meta, "id").value))
      && (ok2 && Lookup(meta, "scrollSpeed").Some? ==> Some(h.m.scrollSpeed) == GetFloat(Lookup(meta, "scrollSpeed").value))
      && (ok3 && Lookup(meta, "width").Some? ==> Some(h.m.width) == GetInt(Lookup(meta, "width").value))
      && (ok4 && Lookup(meta, "height").Some? ==> Some(h.m.height) == GetInt(Lookup(meta, "height").value))
      && (ok5 && Lookup(meta, "backgroundName").Some? ==>
            Some(h.m.backgroundName) == GetString(Lookup(meta, "backgroundName").value))
      && (ok6 && Lookup(meta, "backgroundRepeatCount").Some? ==>
            Some(h.m.backgroundRepeatCount) == GetInt(Lookup(meta, "backgroundRepeatCount").value))
  {
    if ValueString(j, "game", DefaultMap.gameConfigPath).Some? {
      var m := DefaultMap.(gameConfigPath := ValueString(j, "game", DefaultMap.gameConfigPath).value);
      assert HasObject(j, "map");
      assert DecodeHeader(j) == DecodeMeta(JObject(meta), m);
    }
  }

  /**
   * A `width` that is not a number throws after `id` was read: the document keeps
   * that id, every other field keeps its default, and no entity is decoded.
   */
  lemma MetaThrowExample(configAt: ConfigFiles)
    ensures DecodeEditor(Some(JObject([
        ("map", JObject([("height", JInt(5)), ("id", JInt(7)), ("width", JString("w"))])),
        ("waves", JArray([JObject([])]))])), configAt)
      == DefaultMap.(id := 7)
  {
  }

  /** Without a `map` object only the top-level width and height are read; the rest stays default. */
  lemma NoMetaBlock(j: Json)
    requires !HasObject(j, "map")
    ensures var d := DecodeHeader(j).m;
      d == DefaultMap.(gameConfigPath := d.gameConfigPath, width := d.width, height := d.height)
  {
  }

  /**
   * Unparseable text, or a top-level value that is not an object, yields the default
   * document: 800 by 600 with no entities.
   */
  lemma MalformedYieldsDefault(text: Option<Json>, configAt: ConfigFiles)
    requires text.None? || !text.value.JObject?
    ensures DecodeEditor(text, configAt) == DefaultMap
    ensures DefaultMap.width == 800 && DefaultMap.height == 600 && DefaultMap.entities == []
    ensures DefaultMap.id == 1 && DefaultMap.scrollSpeed == 2.0 && DefaultMap.backgroundName == ""
    ensures DefaultMap.backgroundRepeatCount == 1 && DefaultMap.gameConfigPath == DefaultGameConfigPath
    ensures DefaultMap.assets == map[]
  {
  }

  /** The legacy example: one entity with id 7, type WALL at (10, 20), ids kept verbatim. */
  lemma LegacyExample(configAt: ConfigFiles)
    ensures var entity := JObject([("id", JInt(7)), ("type", JString("WALL")), ("x", JInt(10)), ("y", JInt(20))]);
      DecodeEditor(Some(JObject([("entities", JArray([entity]))])), configAt)
        == DefaultMap.(entities := [EntityData(7, "WALL", 10.0, 20.0)])
  {
    var entity := JObject([("id", JInt(7)), ("type", JString("WALL")), ("x", JInt(10)), ("y", JInt(20))]);
    var j := JObject([("entities", JArray([entity]))]);
    assert DecodeHeader(j) == Partial(DefaultMap, true);
    assert DecodeLegacyEntity(entity) == Some(EntityData(7, "WALL", 10.0, 20.0));
    assert DecodeLegacy([entity]) == [EntityData(7, "WALL", 10.0, 20.0)];
  }

  // ---------------------------------------------------------------------------
  // Round trip of the editor dialect

  lemma {:induction false} EncodedWavesDecode(es: seq<EntityData>, refs: map<string, int>, firstId: int, inverse: map<int, string>)
    ensures DecodeWaves(WavesJson(es, refs), firstId, inverse)
         == seq(|es|, k requires 0 <= k < |es| => EntityData(firstId + k, es[k].typeName, es[k].x, es[k].y))
  {
    if |es| > 0 {
      var ws := WavesJson(es, refs);
      assert ws[1..] == WavesJson(es[1..], refs);
      assert DecodeWave(ws[0], firstId, inverse) == Some(EntityData(firstId, es[0].typeName, es[0].x, es[0].y));
      EncodedWavesDecode(es[1..], refs, firstId + 1, inverse);
    }
  }

  /**
   * Decoding an encoded document gives back its metadata, its non-empty config path
   * (an empty one comes back as the default path) and its entities' types and
   * positions in order; ids become 0..n-1 and the assets are not carried. This holds
   * whatever the registries hold.
   */
  lemma EditorRoundTrip(m: MapData, refs: map<string, int>, configAt: ConfigFiles)
    ensures var d := DecodeEditor(Some(EditorJson(m, refs)), configAt);
      && d.gameConfigPath == (if m.gameConfigPath == "" then DefaultGameConfigPath else m.gameConfigPath)
      && d.id == m.id && d.scrollSpeed == m.scrollSpeed
      && d.width == m.width && d.height == m.height
      && d.backgroundName == m.backgroundName && d.backgroundRepeatCount == m.backgroundRepeatCount
      && |d.entities| == |m.entities|
      && (forall k :: 0 <= k < |m.entities| ==>
            d.entities[k] == EntityData(k, m.entities[k].typeName, m.entities[k].x, m.entities[k].y))
      && d.assets == map[]
  {
    var j := EditorJson(m, refs);
    var h := DecodeHeader(j);
    assert h.complete && h.m == m.(gameConfigPath := EditorGameConfig(m), entities := [], assets := map[]);
    EncodedWavesDecode(m.entities, refs, 0, InverseOf(TypeRefsOf(configAt(h.m.gameConfigPath))));
  }

  // ---------------------------------------------------------------------------
  // Server and client levels

  const ServerGameConfig: string := "config/game/rtype.json"

  const ServerSystems: seq<string> := [
    "ScrollSystem", "WaveSystem", "AISystem", "MovementSystem",
    "HitboxSystem", "WeaponSystem", "CleanupSystem"]

  const ClientGameConfig: string := "config/game/client-rtype.json"

  const ClientSystems: seq<string> := [
    "GameInteractionSystem", "ScrollSystem", "MovementSystem", "HitboxSystem",
    "ClearScreenSystem", "DrawingStartSystem", "BackgroundRenderingSystem", "CameraStartSystem",
    "HitboxRenderingSystem", "RectRenderingSystem", "SpriteRenderingSystem", "TextRenderingSystem",
    "CameraEndSystem", "DrawingEndSystem"]

  function Strings(names: seq<string>): seq<Json>
  {
    seq(|names|, k requires 0 <= k < |names| => JString(names[k]))
  }

  /** The server ref of an entity: the registry's, or -1 for an unknown type. */
  function ServerRef(e: EntityData, refs: map<string, int>): int
  {
    if e.typeName in refs then refs[e.typeName] else NoRef
  }

  function LevelEntry(e: EntityData, refs: map<string, int>): (j: Json)
    ensures Member(j, "position") == Some(JObject([("x", JFloat(e.x)), ("y", JFloat(e.y))]))
    ensures Member(j, "ref") == Some(JInt(ServerRef(e, refs)))
  {
    var ms := [("position", JObject([("x", JFloat(e.x)), ("y", JFloat(e.y))])), ("ref", JInt(ServerRef(e, refs)))];
    LookupAt(ms, "position", 0);
    LookupAt(ms, "ref", 1);
    JObject(ms)
  }

  function LevelData(es: seq<EntityData>, refs: map<string, int>): seq<Json>
  {
    seq(|es|, k requires 0 <= k < |es| => LevelEntry(es[k], refs))
  }

  /** The server level of `m` when the server registry is `refs`. */
  function ServerJson(m: MapData, refs: map<string, int>): (j: Json)
    ensures j.JObject?
    ensures Member(j, "game") == Some(JString(ServerGameConfig))
    ensures Member(j, "level_data") == Some(JArray(LevelData(m.entities, refs)))
    ensures Member(j, "spawn_points") == Some(JArray([]))
    ensures Member(j, "startup") == Some(JArray([]))
    ensures Member(j, "systems") == Some(JArray(Strings(ServerSystems)))
    ensures Member(j, "map").None? && Member(j, "waves").None? && Member(j, "entities").None?
    ensures Member(j, "width").None? && Member(j, "height").None?
  {
    var ms := [
      ("game", JString(ServerGameConfig)),
      ("level_data", JArray(LevelData(m.entities, refs))),
      ("spawn_points", JArray([])),
      ("startup", JArray([])),
      ("systems", JArray(Strings(ServerSystems)))];
    LookupAt(ms, "game", 0);
    LookupAt(ms, "level_data", 1);
    LookupAt(ms, "spawn_points", 2);
    LookupAt(ms, "startup", 3);
    LookupAt(ms, "systems", 4);
    LookupCharacterised(ms, "map");
    LookupCharacterised(ms, "waves");
    LookupCharacterised(ms, "entities");
    LookupCharacterised(ms, "width");
    LookupCharacterised(ms, "height");
    JObject(ms)
  }

  /** The content `saveServerLevel` writes; the registry is read from the server's config path. */
  method ServerLevelJson(m: MapData, configAt: ConfigFiles) returns (j: Json)
    ensures j == ServerJson(m, TypeRefsOf(configAt(ServerGameConfig)))
  {
    var typeRefs := LoadTypeRefs(configAt(ServerGameConfig));
    var levelData: seq<Json> := [];
    var i := 0;
    while i < |m.entities|
      invariant 0 <= i <= |m.entities|
      invariant levelData == LevelData(m.entities[..i], typeRefs)
    {
      var e := m.entities[i];
      var ref := NoRef;
      if e.typeName in typeRefs {
        ref := typeRefs[e.typeName];
      }
      levelData := levelData + [JObject([("position", JObject([("x", JFloat(e.x)), ("y", JFloat(e.y))])), ("ref", JInt(ref))])];
      i := i + 1;
    }
    assert m.entities[..i] == m.entities;
    j := JObject([
      ("game", JString(ServerGameConfig)),
      ("level_data", JArray(levelData)),
      ("spawn_points", JArray([])),
      ("startup", JArray([])),
      ("systems", JArray(Strings(ServerSystems)))]);
  }

  /**
   * The server level is position-complete: one `level_data` record per entity, in
   * order, with its position and its ref, -1 exactly for the types the server
   * registry does not know.
   */
  lemma ServerPositionComplete(m: MapData, config: Option<Json>)
    ensures var j := ServerJson(m, TypeRefsOf(config));
      && Member(j, "game") == Some(JString(ServerGameConfig))
      && Member(j, "systems") == Some(JArray(Strings(ServerSystems))) && |ServerSystems| == 7
      && Member(j, "spawn_points") == Some(JArray([])) && Member(j, "startup") == Some(JArray([]))
      && HasArray(j, "level_data")
      && var ld := Member(j, "level_data").value.items;
         && |ld| == |m.entities|
         && forall k :: 0 <= k < |ld| ==>
              && Member(ld[k], "position") == Some(JObject([("x", JFloat(m.entities[k].x)), ("y", JFloat(m.entities[k].y))]))
              && Member(ld[k], "ref").Some? && Member(ld[k], "ref").value.JInt?
              && (Member(ld[k], "ref").value.i == NoRef <==> m.entities[k].typeName !in TypeRefsOf(config))
              && (m.entities[k].typeName in TypeRefsOf(config) ==>
                    Member(ld[k], "ref").value.i == TypeRefsOf(config)[m.entities[k].typeName])
  {
    var refs := TypeRefsOf(config);
    assert NoRef !in refs.Values by {
      NeverRecordsNoRef(Definitions(config), map[]);
    }
    var ld := LevelData(m.entities, refs);
    forall k | 0 <= k < |ld|
      ensures Member(ld[k], "ref").Some? && Member(ld[k], "ref").value.JInt?
      ensures Member(ld[k], "ref").value.i == NoRef <==> m.entities[k].typeName !in refs
    {
      if m.entities[k].typeName in refs {
        assert refs[m.entities[k].typeName] in refs.Values;
      }
    }
  }

  /**
   * The server dialect deliberately does not round-trip: decoding a server level as an
   * editor document gives a default document without entities.
   */
  lemma ServerLevelDoesNotRoundTrip(m: MapData, refs: map<string, int>, configAt: ConfigFiles)
    ensures DecodeEditor(Some(ServerJson(m, refs)), configAt) == DefaultMap.(gameConfigPath := ServerGameConfig)
  {
    var j := ServerJson(m, refs);
    assert DecodeHeader(j) == Partial(DefaultMap.(gameConfigPath := ServerGameConfig), true);
    assert !HasArray(j, "waves") && !HasArray(j, "entities");
  }

  /**
   * The content `saveClientLevel` writes: a fixed template that never carries
   * entity instances or positions, whatever the map holds.
   */
  function ClientLevelJson(m: MapData): (j: Json)
    ensures Member(j, "game") == Some(JString(ClientGameConfig))
    ensures Member(j, "systems") == Some(JArray(Strings(ClientSystems))) && |ClientSystems| == 14
    ensures Member(j, "sprites") == Some(JObject([])) && Member(j, "startup") == Some(JArray([]))
    ensures Member(j, "waves").None? && Member(j, "entities").None? && Member(j, "level_data").None?
  {
    var ms := [
      ("game", JString(ClientGameConfig)),
      ("sprites", JObject([])),
      ("startup", JArray([])),
      ("systems", JArray(Strings(ClientSystems)))];
    LookupAt(ms, "game", 0);
    LookupAt(ms, "sprites", 1);
    LookupAt(ms, "startup", 2);
    LookupAt(ms, "systems", 3);
    LookupCharacterised(ms, "waves");
    LookupCharacterised(ms, "entities");
    LookupCharacterised(ms, "level_data");
    JObject(ms)
  }

  lemma ClientIgnoresMap(m1: MapData, m2: MapData)
    ensures ClientLevelJson(m1) == ClientLevelJson(m2)
  {
  }
}
