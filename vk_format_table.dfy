/**
 * The Vulkan format table generator: for every ANGLE format ID it decides
 * whether the format is implemented and, if so, resolves the texture role and
 * the buffer role independently into nothing, one inline ("basic") entry, or
 * an ordered fallback array. The result is the structured content of one
 * `case angle::FormatID::<id>:` block; rendering it through the C++ text
 * templates is not modelled.
 */
module VkFormatTable {
  import opened Wrappers
  import opened PyStr

  /** An `angle::FormatID` enumerator name such as "R8G8B8A8_UNORM". */
  type FormatId = string
  /** A `VkFormat` enumerator name such as "VK_FORMAT_R8G8B8A8_UNORM". */
  type VkFormat = string
  /** A GL internal-format constant such as "GL_RGBA8". */
  type GlFormat = string

  /** The two roles a format is resolved for; the JSON keys "texture" and "buffer". */
  datatype Usage = Texture | Buffer

  /** A fallback entry in the JSON is either one format ID or a list of them. */
  datatype FallbackValue = One(format: FormatId) | List(formats: seq<FormatId>)

  /** The three tables of vk_format_map.json. */
  datatype Tables = Tables(
    vkMap: map<FormatId, VkFormat>,
    overrides: map<FormatId, map<Usage, FormatId>>,
    fallbacks: map<FormatId, map<Usage, FallbackValue>>)

  /**
   * The two helpers of the foreign `angle_format` module, kept uninterpreted:
   * `get_internal_format_initializer(internal_format, format)` and
   * `get_vertex_copy_function(angle, format)`.
   */
  datatype Foreign = Foreign(
    internalFormatInitializer: (GlFormat, FormatId) -> string,
    vertexCopyFunction: (FormatId, FormatId) -> string)

  /** The fields filled into the texture templates for one candidate. */
  datatype TextureInfo = TextureInfo(
    texture: string,
    vkTextureFormat: VkFormat,
    textureInitializer: string)

  /** The fields filled into the buffer templates for one candidate. */
  datatype BufferInfo = BufferInfo(
    buffer: string,
    vkBufferFormat: VkFormat,
    vkBufferFormatIsPacked: string,
    vertexLoadFunction: string,
    vertexLoadConverts: string)

  /**
   * What a role contributes to a case: nothing, the basic template built from
   * one candidate, or the fallback template holding one struct per candidate.
   */
  datatype Role<T> = NoRole | Basic(info: T) | Fallback(infos: seq<T>)

  /** One generated case block. */
  datatype Case =
    | Unimplemented(formatId: FormatId)
    | Entry(formatId: FormatId, internalFormat: GlFormat,
            texture: Role<TextureInfo>, buffer: Role<BufferInfo>)

  /** The exception that aborts generation: a `vk_map[format]` lookup that misses. */
  datatype Error = KeyError(key: FormatId)

  const NoneFormat: FormatId := "NONE"
  const PackMarker: string := "_PACK"
  const FormatIdScope: string := "angle::FormatID::"

  // ---------------------------------------------------------------------------
  // is_packed
  // ---------------------------------------------------------------------------

  /** "true" exactly when the Vulkan format name contains "_PACK", "false" otherwise. */
  function IsPacked(vkFormat: VkFormat): (r: string)
    ensures r == "true" || r == "false"
    ensures r == "true" <==> exists i :: 0 <= i <= |vkFormat| && OccursAt(vkFormat, "_PACK", i)
  {
    if Contains(vkFormat, PackMarker) then "true" else "false"
  }

  // ---------------------------------------------------------------------------
  // Candidate lists (get_formats)
  // ---------------------------------------------------------------------------

  /**
   * The sentinel, or an ID none of the three tables mentions, is not
   * implemented. Apart from the sentinel, such an ID would have no candidates
   * in either role anyway.
   */
  function IsUnimplemented(angle: FormatId, t: Tables): (r: bool)
    ensures angle == NoneFormat ==> r
    ensures r && angle != NoneFormat ==> GetFormats(angle, Texture, t) == [] && GetFormats(angle, Buffer, t) == []
    ensures !r ==> angle != NoneFormat
  {
    (angle !in t.vkMap && angle !in t.overrides && angle !in t.fallbacks) || angle == NoneFormat
  }

  /** `overrides.get(format, {}).get(type, format)`: the role's override if any, else the ID itself. */
  function EffectiveKey(format: FormatId, usage: Usage, t: Tables): (key: FormatId)
    ensures format in t.overrides && usage in t.overrides[format] ==> key == t.overrides[format][usage]
    ensures !(format in t.overrides && usage in t.overrides[format]) ==> key == format
  {
    if format in t.overrides && usage in t.overrides[format] then t.overrides[format][usage] else format
  }

  /**
   * `fallbacks.get(format, {}).get(type, [])`: empty without an entry, a
   * scalar wrapped as a one-element list, a list as it stands.
   */
  function FallbackList(format: FormatId, usage: Usage, t: Tables): (r: seq<FormatId>)
    ensures !(format in t.fallbacks && usage in t.fallbacks[format]) ==> r == []
    ensures format in t.fallbacks && usage in t.fallbacks[format] && t.fallbacks[format][usage].One? ==>
              r == [t.fallbacks[format][usage].format]
    ensures format in t.fallbacks && usage in t.fallbacks[format] && t.fallbacks[format][usage].List? ==>
              r == t.fallbacks[format][usage].formats
  {
    if format in t.fallbacks && usage in t.fallbacks[format] then
      match t.fallbacks[format][usage]
      case One(f) => [f]
      case List(fs) => fs
    else []
  }

  /** The candidate list of one role: empty, or the effective key followed by its fallbacks. */
  function GetFormats(format: FormatId, usage: Usage, t: Tables): (r: seq<FormatId>)
    ensures r == [] <==> EffectiveKey(format, usage, t) !in t.vkMap
    ensures r != [] ==> r[0] == EffectiveKey(format, usage, t) && r[0] in t.vkMap
  {
    var key := EffectiveKey(format, usage, t);
    if key !in t.vkMap then [] else [key] + FallbackList(key, usage, t)
  }

  // ---------------------------------------------------------------------------
  // Per-candidate fields (texture_args / buffer_args)
  // ---------------------------------------------------------------------------

  /**
   * `texture_args`: the scoped enumerator of the candidate, its Vulkan format
   * and the initializer for (internal format, candidate).
   */
  function TextureArgs(internalFormat: GlFormat, format: FormatId, vkFormat: VkFormat, foreign: Foreign): (r: TextureInfo)
    ensures FormatIdScope <= r.texture && r.texture[|FormatIdScope|..] == format
    ensures r.vkTextureFormat == vkFormat
    ensures r.textureInitializer == foreign.internalFormatInitializer(internalFormat, format)
  {
    TextureInfo(FormatIdScope + format, vkFormat, foreign.internalFormatInitializer(internalFormat, format))
  }

  /**
   * `buffer_args`: the scoped enumerator of the candidate and its Vulkan
   * format, packed exactly when that format's name contains "_PACK", the
   * vertex copy function for (ANGLE ID, candidate), and a conversion needed
   * exactly when the candidate is not the ANGLE ID.
   */
  function BufferArgs(angle: FormatId, format: FormatId, vkFormat: VkFormat, foreign: Foreign): (r: BufferInfo)
    ensures FormatIdScope <= r.buffer && r.buffer[|FormatIdScope|..] == format
    ensures r.vkBufferFormat == vkFormat
    ensures r.vkBufferFormatIsPacked == "true" || r.vkBufferFormatIsPacked == "false"
    ensures r.vkBufferFormatIsPacked == "true" <==> exists i :: 0 <= i <= |vkFormat| && OccursAt(vkFormat, "_PACK", i)
    ensures r.vertexLoadFunction == foreign.vertexCopyFunction(angle, format)
    ensures r.vertexLoadConverts == "false" || r.vertexLoadConverts == "true"
    ensures r.vertexLoadConverts == "false" <==> angle == format
  {
    BufferInfo(FormatIdScope + format, vkFormat, IsPacked(vkFormat),
               foreign.vertexCopyFunction(angle, format),
               if angle == format then "false" else "true")
  }

  /** Index `i` is the first candidate without a Vulkan mapping. */
  predicate FirstMissing(cands: seq<FormatId>, vkMap: map<FormatId, VkFormat>, i: nat) {
    && i < |cands|
    && cands[i] !in vkMap
    && forall j :: 0 <= j < i ==> cands[j] in vkMap
  }

  /** All candidates are in the map. */
  predicate AllMapped(cands: seq<FormatId>, vkMap: map<FormatId, VkFormat>) {
    forall i :: 0 <= i < |cands| ==> cands[i] in vkMap
  }

  /**
   * Build the per-candidate fields in list order, as the generator expression
   * inside `", ".join(...)` does; the first candidate missing from the map raises.
   */
  function BuildInfos<T>(cands: seq<FormatId>, vkMap: map<FormatId, VkFormat>,
                         build: (FormatId, VkFormat) -> T): (r: Result<seq<T>, Error>)
    ensures r.Success? <==> AllMapped(cands, vkMap)
    ensures r.Success? ==> |r.value| == |cands|
    ensures r.Success? ==> forall i :: 0 <= i < |cands| ==> r.value[i] == build(cands[i], vkMap[cands[i]])
    ensures r.Failure? ==> exists i: nat :: FirstMissing(cands, vkMap, i) && r.error == KeyError(cands[i])
  {
    if cands == [] then Success([])
    else if cands[0] !in vkMap then
      assert FirstMissing(cands, vkMap, 0);
      Failure(KeyError(cands[0]))
    else
      match BuildInfos(cands[1..], vkMap, build)
      case Failure(e) =>
        var k: nat :| FirstMissing(cands[1..], vkMap, k) && e == KeyError(cands[1..][k]);
        assert FirstMissing(cands, vkMap, k + 1);
        Failure(e)
      case Success(rest) =>
        Success([build(cands[0], vkMap[cands[0]])] + rest)
  }

  /** The entries a role holds, in order. */
  function Infos<T>(role: Role<T>): seq<T> {
    match role
    case NoRole => []
    case Basic(x) => [x]
    case Fallback(xs) => xs
  }

  /**
   * `role` is the shape the candidate list calls for: none for zero
   * candidates, basic for one, a fallback array for more, holding exactly
   * the candidates' fields in list order.
   */
  ghost predicate ShapeFollows<T>(role: Role<T>, cands: seq<FormatId>, vkMap: map<FormatId, VkFormat>,
                            build: (FormatId, VkFormat) -> T) {
    && (role.NoRole? <==> |cands| == 0)
    && (role.Basic? <==> |cands| == 1)
    && (role.Fallback? <==> |cands| > 1)
    && AllMapped(cands, vkMap)
    && |Infos(role)| == |cands|
    && forall i :: 0 <= i < |cands| ==> Infos(role)[i] == build(cands[i], vkMap[cands[i]])
  }

  /** The `len(...) == 1` / `len(...) > 1` branches of gen_format_case for one role. */
  function ResolveRole<T>(cands: seq<FormatId>, vkMap: map<FormatId, VkFormat>,
                          build: (FormatId, VkFormat) -> T): (r: Result<Role<T>, Error>)
    ensures r.Success? <==> AllMapped(cands, vkMap)
    ensures r.Success? ==> ShapeFollows(r.value, cands, vkMap, build)
    ensures r.Failure? ==> exists i: nat :: FirstMissing(cands, vkMap, i) && r.error == KeyError(cands[i])
  {
    if |cands| == 1 then
      if cands[0] in vkMap then Success(Basic(build(cands[0], vkMap[cands[0]])))
      else
        assert FirstMissing(cands, vkMap, 0);
        Failure(KeyError(cands[0]))
    else if |cands| > 1 then
      match BuildInfos(cands, vkMap, build)
      case Success(infos) => Success(Fallback(infos))
      case Failure(e) => Failure(e)
    else Success(NoRole)
  }

  function TextureBuilder(internalFormat: GlFormat, foreign: Foreign): (FormatId, VkFormat) -> TextureInfo {
    (format, vkFormat) => TextureArgs(internalFormat, format, vkFormat, foreign)
  }

  function BufferBuilder(angle: FormatId, foreign: Foreign): (FormatId, VkFormat) -> BufferInfo {
    (format, vkFormat) => BufferArgs(angle, format, vkFormat, foreign)
  }

  // ---------------------------------------------------------------------------
  // gen_format_case
  // ---------------------------------------------------------------------------

  /** The case block for one ANGLE format ID; texture is resolved before buffer. */
  function GenFormatCase(angle: FormatId, internalFormat: GlFormat, t: Tables, foreign: Foreign): (r: Result<Case, Error>)
    ensures r.Success? ==> r.value.formatId == angle
    ensures r == Success(Unimplemented(angle)) <==> IsUnimplemented(angle, t)
    ensures r.Success? && r.value.Entry? ==> r.value.internalFormat == internalFormat
  {
    if IsUnimplemented(angle, t) then Success(Unimplemented(angle))
    else
      match ResolveRole(GetFormats(angle, Texture, t), t.vkMap, TextureBuilder(internalFormat, foreign))
      case Failure(e) => Failure(e)
      case Success(texture) =>
        match ResolveRole(GetFormats(angle, Buffer, t), t.vkMap, BufferBuilder(angle, foreign))
        case Failure(e) => Failure(e)
        case Success(buffer) => Success(Entry(angle, internalFormat, texture, buffer))
  }

  // ---------------------------------------------------------------------------
  // Properties of get_formats
  // ---------------------------------------------------------------------------

  /** The override for the role is the lookup key when present; otherwise the ID itself. */
  lemma GetFormatsHead(format: FormatId, usage: Usage, t: Tables)
    ensures var r := GetFormats(format, usage, t);
      && (format in t.overrides && usage in t.overrides[format] ==>
            (r == [] <==> t.overrides[format][usage] !in t.vkMap)
            && (r != [] ==> r[0] == t.overrides[format][usage]))
      && (!(format in t.overrides && usage in t.overrides[format]) ==>
            (r == [] <==> format !in t.vkMap)
            && (r != [] ==> r[0] == format))
  {
  }

  /**
   * A non-empty list is one plus the number of fallbacks, a scalar fallback
   * counting as one, and the fallbacks are those of the effective key.
   */
  lemma GetFormatsLength(format: FormatId, usage: Usage, t: Tables)
    requires GetFormats(format, usage, t) != []
    ensures var key := EffectiveKey(format, usage, t);
      var r := GetFormats(format, usage, t);
      && (key !in t.fallbacks || usage !in t.fallbacks[key] ==> r == [key])
      && (key in t.fallbacks && usage in t.fallbacks[key] && t.fallbacks[key][usage].One? ==>
            r == [key, t.fallbacks[key][usage].format])
      && (key in t.fallbacks && usage in t.fallbacks[key] && t.fallbacks[key][usage].List? ==>
            |r| == 1 + |t.fallbacks[key][usage].formats| && r[1..] == t.fallbacks[key][usage].formats)
  {
  }

  /**
   * When an override redirects the role to another key, the fallbacks
   * listed under the original ID play no part.
   */
  lemma FallbacksOfOverriddenIdIgnored(format: FormatId, usage: Usage, t: Tables, replacement: map<Usage, FallbackValue>)
    requires format in t.overrides && usage in t.overrides[format]
    requires t.overrides[format][usage] != format
    ensures GetFormats(format, usage, t) == GetFormats(format, usage, t.(fallbacks := t.fallbacks[format := replacement]))
  {
  }

  /** The part of the tables that concerns one role only. */
  function RestrictTo(t: Tables, usage: Usage): Tables {
    Tables(
      t.vkMap,
      map k | k in t.overrides && usage in t.overrides[k] :: map[usage := t.overrides[k][usage]],
      map k | k in t.fallbacks && usage in t.fallbacks[k] :: map[usage := t.fallbacks[k][usage]])
  }

  /** A role's candidates depend only on that role's overrides and fallbacks. */
  lemma GetFormatsIndependentOfOtherRole(format: FormatId, usage: Usage, t: Tables)
    ensures GetFormats(format, usage, t) == GetFormats(format, usage, RestrictTo(t, usage))
  {
  }

  // ---------------------------------------------------------------------------
  // Properties of gen_format_case
  // ---------------------------------------------------------------------------

  /** The texture role has the shape its candidate list calls for, entries in list order. */
  lemma TextureRoleFollowsCandidates(angle: FormatId, internalFormat: GlFormat, t: Tables, foreign: Foreign)
    requires GenFormatCase(angle, internalFormat, t, foreign).Success?
    requires GenFormatCase(angle, internalFormat, t, foreign).value.Entry?
    ensures var c := GenFormatCase(angle, internalFormat, t, foreign).value;
      var cands := GetFormats(angle, Texture, t);
      && (c.texture.NoRole? <==> |cands| == 0)
      && (c.texture.Basic? <==> |cands| == 1)
      && |Infos(c.texture)| == |cands|
      && forall i :: 0 <= i < |cands| ==>
           cands[i] in t.vkMap &&
           Infos(c.texture)[i] == TextureInfo(FormatIdScope + cands[i], t.vkMap[cands[i]],
                                              foreign.internalFormatInitializer(internalFormat, cands[i]))
  {
  }

  /**
   * The buffer role has the shape its candidate list calls for; every entry is
   * packed exactly when its Vulkan format is, and needs no conversion exactly
   * when its candidate is the ANGLE ID itself.
   */
  lemma BufferRoleFollowsCandidates(angle: FormatId, internalFormat: GlFormat, t: Tables, foreign: Foreign)
    requires GenFormatCase(angle, internalFormat, t, foreign).Success?
    requires GenFormatCase(angle, internalFormat, t, foreign).value.Entry?
    ensures var c := GenFormatCase(angle, internalFormat, t, foreign).value;
      var cands := GetFormats(angle, Buffer, t);
      && (c.buffer.NoRole? <==> |cands| == 0)
      && (c.buffer.Basic? <==> |cands| == 1)
      && |Infos(c.buffer)| == |cands|
      && forall i :: 0 <= i < |cands| ==>
           && cands[i] in t.vkMap
           && Infos(c.buffer)[i].buffer == FormatIdScope + cands[i]
           && Infos(c.buffer)[i].vkBufferFormat == t.vkMap[cands[i]]
           && Infos(c.buffer)[i].vkBufferFormatIsPacked == IsPacked(t.vkMap[cands[i]])
           && Infos(c.buffer)[i].vertexLoadFunction == foreign.vertexCopyFunction(angle, cands[i])
           && (Infos(c.buffer)[i].vertexLoadConverts == "false" <==> cands[i] == angle)
           && (Infos(c.buffer)[i].vertexLoadConverts == "true" <==> cands[i] != angle)
  {
  }

  /**
   * An implemented ID yields an entry, unless a fallback it lists has no
   * Vulkan mapping; with every fallback mapped, generation never fails.
   */
  lemma FailsOnlyOnUnmappedFallback(angle: FormatId, internalFormat: GlFormat, t: Tables, foreign: Foreign)
    ensures var r := GenFormatCase(angle, internalFormat, t, foreign);
      && (r.Success? <==>
            IsUnimplemented(angle, t) ||
            (AllMapped(GetFormats(angle, Texture, t), t.vkMap) && AllMapped(GetFormats(angle, Buffer, t), t.vkMap)))
      && (r.Failure? ==> exists u: Usage, i: nat :: FirstMissing(GetFormats(angle, u, t), t.vkMap, i) && i > 0
                                            && r.error == KeyError(GetFormats(angle, u, t)[i]))
  {
  }

  /**
   * An ID that is mapped, with no override and no fallback entry, gets the
   * basic template in both roles, built from the ID itself; the buffer needs
   * no conversion.
   */
  lemma PlainMappedFormat(angle: FormatId, internalFormat: GlFormat, t: Tables, foreign: Foreign)
    requires angle != NoneFormat && angle in t.vkMap
    requires angle !in t.overrides && angle !in t.fallbacks
    ensures var vk := t.vkMap[angle];
      GenFormatCase(angle, internalFormat, t, foreign) ==
        Success(Entry(angle, internalFormat,
                      Basic(TextureArgs(internalFormat, angle, vk, foreign)),
                      Basic(BufferArgs(angle, angle, vk, foreign))))
    ensures GenFormatCase(angle, internalFormat, t, foreign).value.buffer.info.vertexLoadConverts == "false"
  {
  }

  // ---------------------------------------------------------------------------
  // The sorted case list
  // ---------------------------------------------------------------------------

  /** The items of a dictionary: no key twice. */
  predicate KeysDistinct(items: seq<(FormatId, GlFormat)>) {
    forall i, j :: 0 <= i < j < |items| ==> items[i].0 != items[j].0
  }

  /** Strictly increasing by key. */
  predicate SortedByKey(items: seq<(FormatId, GlFormat)>) {
    forall i, j :: 0 <= i < j < |items| ==> Less(items[i].0, items[j].0)
  }

  /** Insert `x` in front of the first item whose key is not below its own. */
  function Insert(x: (FormatId, GlFormat), s: seq<(FormatId, GlFormat)>): (r: seq<(FormatId, GlFormat)>)
    ensures multiset(r) == multiset(s) + multiset{x}
  {
    if s == [] then [x]
    else if Less(x.0, s[0].0) then [x] + s
    else
      assert s == [s[0]] + s[1..];
      [s[0]] + Insert(x, s[1..])
  }

  lemma {:induction false} InsertSorted(x: (FormatId, GlFormat), s: seq<(FormatId, GlFormat)>)
    requires SortedByKey(s)
    requires forall i :: 0 <= i < |s| ==> s[i].0 != x.0
    ensures SortedByKey(Insert(x, s))
  {
    if s == [] {
    } else if Less(x.0, s[0].0) {
      InsertBeforeHead(x, s);
    } else {
      LessTotal(x.0, s[0].0);
      var tail := s[1..];
      assert SortedByKey(tail);
      InsertSorted(x, tail);
      assert s == [s[0]] + tail;
      HeadBelowRest(s[0], x, tail, Insert(x, tail));
    }
  }

  lemma InsertBeforeHead(x: (FormatId, GlFormat), s: seq<(FormatId, GlFormat)>)
    requires SortedByKey(s) && s != [] && Less(x.0, s[0].0)
    ensures SortedByKey([x] + s)
  {
    forall j | 0 < j < |s| ensures Less(x.0, s[j].0) {
      LessTransitive(x.0, s[0].0, s[j].0);
    }
  }

  lemma HeadBelowRest(h: (FormatId, GlFormat), x: (FormatId, GlFormat),
                      tail: seq<(FormatId, GlFormat)>, rest: seq<(FormatId, GlFormat)>)
    requires SortedByKey([h] + tail) && SortedByKey(rest) && Less(h.0, x.0)
    requires multiset(rest) == multiset(tail) + multiset{x}
    ensures SortedByKey([h] + rest)
  {
    forall j | 0 <= j < |rest| ensures Less(h.0, rest[j].0) {
      assert rest[j] in multiset(rest);
      if rest[j] != x {
        assert rest[j] in multiset(tail);
        assert rest[j] in tail;
        var k :| 0 <= k < |tail| && tail[k] == rest[j];
        assert ([h] + tail)[0] == h && ([h] + tail)[k + 1] == tail[k];
        assert Less(([h] + tail)[0].0, ([h] + tail)[k + 1].0);
      }
    }
  }

  /** `sorted(angle_to_gl.iteritems())`: the dictionary's items in increasing key order. */
  function SortItems(items: seq<(FormatId, GlFormat)>): (r: seq<(FormatId, GlFormat)>)
    requires KeysDistinct(items)
    ensures multiset(r) == multiset(items)
    ensures SortedByKey(r)
  {
    if items == [] then []
    else
      var rest := SortItems(items[1..]);
      assert items == [items[0]] + items[1..];
      forall i | 0 <= i < |rest| ensures rest[i].0 != items[0].0 {
        assert rest[i] in multiset(items[1..]);
      }
      InsertSorted(items[0], rest);
      Insert(items[0], rest)
  }

  /** The case list over already sorted items; the first failing case aborts the list. */
  function CasesOf(sorted: seq<(FormatId, GlFormat)>, t: Tables, foreign: Foreign): (r: Result<seq<Case>, Error>)
    ensures r.Success? ==> |r.value| == |sorted|
    ensures r.Success? ==> forall i :: 0 <= i < |sorted| ==>
              GenFormatCase(sorted[i].0, sorted[i].1, t, foreign) == Success(r.value[i])
    ensures r.Failure? ==>
              exists i :: 0 <= i < |sorted| && GenFormatCase(sorted[i].0, sorted[i].1, t, foreign) == Failure(r.error)
  {
    if sorted == [] then Success([])
    else
      match GenFormatCase(sorted[0].0, sorted[0].1, t, foreign)
      case Failure(e) => Failure(e)
      case Success(c) =>
        match CasesOf(sorted[1..], t, foreign)
        case Failure(e) => Failure(e)
        case Success(rest) => Success([c] + rest)
  }

  /**
   * `vk_cases`: as many cases as items of the inverse table, with strictly
   * increasing IDs, case i being that of the i-th item in sorted order.
   */
  function VkCases(angleToGl: seq<(FormatId, GlFormat)>, t: Tables, foreign: Foreign): (r: Result<seq<Case>, Error>)
    requires KeysDistinct(angleToGl)
    ensures r.Success? ==> |r.value| == |angleToGl|
    ensures r.Success? ==> forall i, j :: 0 <= i < j < |r.value| ==> Less(r.value[i].formatId, r.value[j].formatId)
    ensures r.Success? ==> forall i :: 0 <= i < |r.value| ==>
              GenFormatCase(SortItems(angleToGl)[i].0, SortItems(angleToGl)[i].1, t, foreign) == Success(r.value[i])
  {
    var sorted := SortItems(angleToGl);
    assert |sorted| == |multiset(sorted)| == |multiset(angleToGl)| == |angleToGl|;
    CaseIdsFollowSorted(sorted, t, foreign);
    CasesOf(sorted, t, foreign)
  }

  /** Proof helper: case i carries the ID of item i. */
  lemma CaseIdsFollowSorted(sorted: seq<(FormatId, GlFormat)>, t: Tables, foreign: Foreign)
    ensures CasesOf(sorted, t, foreign).Success? ==>
              forall i :: 0 <= i < |sorted| ==> CasesOf(sorted, t, foreign).value[i].formatId == sorted[i].0
  {
    var r := CasesOf(sorted, t, foreign);
    if r.Success? {
      forall i | 0 <= i < |sorted| ensures r.value[i].formatId == sorted[i].0 {
        assert GenFormatCase(sorted[i].0, sorted[i].1, t, foreign) == Success(r.value[i]);
      }
    }
  }

  /** In a strictly sorted list every other item has a key above the head's. */
  lemma SortedHeadIsLeast(a: seq<(FormatId, GlFormat)>, x: (FormatId, GlFormat))
    requires SortedByKey(a) && a != [] && x in multiset(a) && x != a[0]
    ensures Less(a[0].0, x.0)
  {
  }

  lemma TailMultiset(a: seq<(FormatId, GlFormat)>, b: seq<(FormatId, GlFormat)>)
    requires a != [] && b != [] && a[0] == b[0] && multiset(a) == multiset(b)
    ensures multiset(a[1..]) == multiset(b[1..])
  {
    assert a == [a[0]] + a[1..] && b == [b[0]] + b[1..];
    assert multiset(a) == multiset{a[0]} + multiset(a[1..]);
    assert multiset(b) == multiset{b[0]} + multiset(b[1..]);
    assert multiset(a[1..]) == multiset(a) - multiset{a[0]};
    assert multiset(b[1..]) == multiset(b) - multiset{b[0]};
  }

  /** Any two strictly sorted orderings of the same items are equal: `sorted` has one answer. */
  lemma {:induction false} SortedPermutationUnique(a: seq<(FormatId, GlFormat)>, b: seq<(FormatId, GlFormat)>)
    requires SortedByKey(a) && SortedByKey(b) && multiset(a) == multiset(b)
    ensures a == b
  {
    if a != [] {
      assert a[0] in multiset(b);
      assert b[0] in multiset(a);
      if a[0] != b[0] {
        SortedHeadIsLeast(a, b[0]);
        SortedHeadIsLeast(b, a[0]);
        LessAsymmetric(a[0].0, b[0].0);
        assert false;
      }
      TailMultiset(a, b);
      SortedPermutationUnique(a[1..], b[1..]);
      assert a == [a[0]] + a[1..] && b == [b[0]] + b[1..];
    } else {
      assert |b| == |multiset(b)| == 0;
    }
  }

  /**
   * The generated cases follow the sorted order of the ANGLE IDs with exactly
   * one case per entry of the inverse table, each being that entry's case.
   */
  lemma {:induction false} VkCasesOnePerEntry(angleToGl: seq<(FormatId, GlFormat)>, t: Tables, foreign: Foreign)
    requires KeysDistinct(angleToGl)
    requires VkCases(angleToGl, t, foreign).Success?
    ensures var cases := VkCases(angleToGl, t, foreign).value;
      && |cases| == |angleToGl|
      && (forall i, j :: 0 <= i < j < |cases| ==> Less(cases[i].formatId, cases[j].formatId))
      && (forall k :: 0 <= k < |angleToGl| ==>
            exists i :: 0 <= i < |cases| && cases[i].formatId == angleToGl[k].0 &&
                        Success(cases[i]) == GenFormatCase(angleToGl[k].0, angleToGl[k].1, t, foreign))
  {
    var sorted := SortItems(angleToGl);
    var cases := VkCases(angleToGl, t, foreign).value;
    assert |sorted| == |multiset(sorted)| == |multiset(angleToGl)| == |angleToGl|;
    forall i | 0 <= i < |cases| ensures cases[i].formatId == sorted[i].0 {
      assert GenFormatCase(sorted[i].0, sorted[i].1, t, foreign) == Success(cases[i]);
    }
    forall k | 0 <= k < |angleToGl|
      ensures exists i :: 0 <= i < |cases| && cases[i].formatId == angleToGl[k].0 &&
                          Success(cases[i]) == GenFormatCase(angleToGl[k].0, angleToGl[k].1, t, foreign)
    {
      assert angleToGl[k] in multiset(sorted);
      var i :| 0 <= i < |sorted| && sorted[i] == angleToGl[k];
      assert cases[i].formatId == angleToGl[k].0;
    }
  }

  /** The case list fails exactly when the case of some entry fails. */
  lemma {:induction false} VkCasesFailIff(angleToGl: seq<(FormatId, GlFormat)>, t: Tables, foreign: Foreign)
    requires KeysDistinct(angleToGl)
    ensures VkCases(angleToGl, t, foreign).Failure? <==>
            exists k :: 0 <= k < |angleToGl| && GenFormatCase(angleToGl[k].0, angleToGl[k].1, t, foreign).Failure?
  {
    var sorted := SortItems(angleToGl);
    var r := VkCases(angleToGl, t, foreign);
    if r.Failure? {
      var i :| 0 <= i < |sorted| && GenFormatCase(sorted[i].0, sorted[i].1, t, foreign) == Failure(r.error);
      assert sorted[i] in multiset(angleToGl);
      var k :| 0 <= k < |angleToGl| && angleToGl[k] == sorted[i];
      assert GenFormatCase(angleToGl[k].0, angleToGl[k].1, t, foreign).Failure?;
    } else {
      forall k | 0 <= k < |angleToGl| ensures GenFormatCase(angleToGl[k].0, angleToGl[k].1, t, foreign).Success? {
        assert angleToGl[k] in multiset(sorted);
        var i :| 0 <= i < |sorted| && sorted[i] == angleToGl[k];
        assert GenFormatCase(sorted[i].0, sorted[i].1, t, foreign) == Success(r.value[i]);
      }
    }
  }
}
