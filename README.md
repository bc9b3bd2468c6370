# ANGLE offline code generators, modelled in Dafny

This project models the two build-time generators of ANGLE that do more than templating:

- **The Vulkan format table generator** (`src/libANGLE/renderer/vulkan/gen_vk_format_table.py`).
  For every `angle::FormatID`, it emits one `case` block of `vk::Format::initialize`.
  A block is either "not implemented in Vulkan" or an entry that sets `internalFormat`.
  The entry then resolves the texture role and the buffer role independently.
  Each role consults the `overrides` table, checks the `map` table, appends the `fallbacks` list, and picks nothing, the inline ("basic") template, or a `kInfo[]` fallback array.
  Module `VkFormatTable` models the tables as Dafny maps and the case block as the datatype `Case`, with `Role<T> = NoRole | Basic(info) | Fallback(infos)`.
  The KeyError raised when a fallback ID has no Vulkan mapping is modelled as `Failure(KeyError(id))`.
  The case list is sorted by ANGLE ID.
- **The dynamic loader generator** (`scripts/generate_loader.py`).
  From one list of command names it derives the header's `extern` declarations, the source's definitions, and the `loadProc` assignments of `Load<API>`.
  Variable names are `ns + pre(cmd)`, where `pre(cmd) = prefix + cmd[len(api):]`.
  Type names are `PFN<UPPER>PROC`.
  It also fixes the EGL features `EGL_VERSION_1_0` … `EGL_VERSION_1_5`, whose commands are requested from the registry.
  Module `Loader` models this.

Module `PyStr` models the Python string built-ins these scripts use:
- the substring test `p in s`;
- `str` ordering as used by `sorted`;
- `str.upper()`;
- `"{}".format(n)` for a natural number.

Module `Wrappers` holds `Option` and `Result`.

The foreign helpers `angle_format.get_internal_format_initializer` and `angle_format.get_vertex_copy_function` stay uninterpreted.
They are the total functions held in a `VkFormatTable.Foreign` value, which the generator takes as a parameter.

Two behaviours of the code are kept as written:
- A command name shorter than the API name is not an error in the code. The Python slice `cmd[len(api):]` is then empty, so `pre(cmd) == prefix`. `Loader.Pre` models exactly that.
- A fallback ID missing from `map` is not skipped. `vk_map[format]` raises, which aborts the whole generation. The model returns `Failure`.

## Model

| member | source | states |
|---|---|---|
| `VkFormatTable.IsPacked` | src/libANGLE/renderer/vulkan/gen_vk_format_table.py:98-99 | the result is "true" exactly when "_PACK" occurs somewhere in the Vulkan format name, and "false" otherwise |
| `PyStr.Contains` | src/libANGLE/renderer/vulkan/gen_vk_format_table.py:99 | Python's `p in s` is true exactly when `p` occurs in `s` at some index |
| `VkFormatTable.GenFormatCase` | src/libANGLE/renderer/vulkan/gen_vk_format_table.py:102-163 | the case is `Unimplemented(angle)` exactly when the ID is "NONE" or is in none of `map`, `overrides`, `fallbacks`; otherwise it is an entry for that ID carrying the given internal format |
| `VkFormatTable.IsUnimplemented` | src/libANGLE/renderer/vulkan/gen_vk_format_table.py:112-113 | "NONE" is always unimplemented; any other unimplemented ID has no texture and no buffer candidates |
| `VkFormatTable.GetFormats` | src/libANGLE/renderer/vulkan/gen_vk_format_table.py:116-123 | the candidate list is empty exactly when the effective key (the override for the role, else the ID) is not in `map`; otherwise it starts with that mapped key |
| `VkFormatTable.EffectiveKey` | src/libANGLE/renderer/vulkan/gen_vk_format_table.py:117 | the key is the role's override when the ID has one for that role, and the ID itself otherwise |
| `VkFormatTable.FallbackList` | src/libANGLE/renderer/vulkan/gen_vk_format_table.py:120-122 | no fallback entry for the role gives the empty list, a scalar `f` gives `[f]`, a list is kept as it stands |
| `VkFormatTable.GetFormatsHead` | src/libANGLE/renderer/vulkan/gen_vk_format_table.py:117-119 | with an override for the role, emptiness and the head are decided by the override; without one, by the ID itself |
| `VkFormatTable.GetFormatsLength` | src/libANGLE/renderer/vulkan/gen_vk_format_table.py:120-123 | a non-empty list is `[key]` with no fallback entry, `[key, f]` for a scalar fallback `f`, and `[key] + fs` (length 1 + len(fs)) for a list `fs`, all looked up under the effective key |
| `VkFormatTable.FallbacksOfOverriddenIdIgnored` | src/libANGLE/renderer/vulkan/gen_vk_format_table.py:117-120 | when an override redirects the role to another key, replacing the fallbacks stored under the original ID leaves the candidate list unchanged |
| `VkFormatTable.GetFormatsIndependentOfOtherRole` | src/libANGLE/renderer/vulkan/gen_vk_format_table.py:116-123 | a role's candidate list is the same when the overrides and fallbacks of the other role are removed |
| `VkFormatTable.TextureArgs` | src/libANGLE/renderer/vulkan/gen_vk_format_table.py:125-130 | the texture is `angle::FormatID::` followed by the candidate, with the given Vulkan format and the initializer for (internal format, candidate) |
| `VkFormatTable.BufferArgs` | src/libANGLE/renderer/vulkan/gen_vk_format_table.py:132-140 | the buffer is `angle::FormatID::` followed by the candidate, with the given Vulkan format; the packed flag is "true" exactly when "_PACK" occurs in that format; the copy function is the one for (ANGLE ID, candidate); the conversion flag is "false" exactly when the candidate is the ANGLE ID, "true" otherwise |
| `VkFormatTable.BuildInfos` | src/libANGLE/renderer/vulkan/gen_vk_format_table.py:147-151 | succeeds exactly when every candidate is in `map`, then gives one entry per candidate, in list order, built from the candidate and its Vulkan format; otherwise fails with the KeyError of the first unmapped candidate |
| `VkFormatTable.ResolveRole` | src/libANGLE/renderer/vulkan/gen_vk_format_table.py:142-161 | zero candidates give no role, one gives the basic template, more give a fallback array of exactly as many entries in list order; fails exactly when a candidate is unmapped, naming the first one |
| `VkFormatTable.TextureRoleFollowsCandidates` | src/libANGLE/renderer/vulkan/gen_vk_format_table.py:125-151 | in an entry, the texture role's shape follows the length of the texture candidate list, and entry i is `angle::FormatID::<c_i>`, `map[c_i]` and the initializer for (internal format, c_i) |
| `VkFormatTable.BufferRoleFollowsCandidates` | src/libANGLE/renderer/vulkan/gen_vk_format_table.py:132-161 | in an entry, the buffer role's shape follows the length of the buffer candidate list; entry i names c_i and `map[c_i]`, its packed flag is `is_packed(map[c_i])`, and its conversion flag is "false" exactly when c_i is the ANGLE ID |
| `VkFormatTable.FailsOnlyOnUnmappedFallback` | src/libANGLE/renderer/vulkan/gen_vk_format_table.py:125-161 | a case fails exactly when the ID is implemented and some candidate of a role is unmapped; the failing key is always a fallback (index > 0), never the effective key |
| `VkFormatTable.PlainMappedFormat` | src/libANGLE/renderer/vulkan/gen_vk_format_table.py:112-161 | a mapped ID with no override and no fallback entry gets the basic template in both roles, built from the ID itself, and its buffer needs no conversion |
| `VkFormatTable.SortItems` | src/libANGLE/renderer/vulkan/gen_vk_format_table.py:172 | the result is a permutation of the inverse table's items, strictly increasing by ANGLE ID |
| `VkFormatTable.InsertSorted` | src/libANGLE/renderer/vulkan/gen_vk_format_table.py:172 | inserting an item with a new key into a strictly sorted list keeps it strictly sorted |
| `VkFormatTable.SortedPermutationUnique` | src/libANGLE/renderer/vulkan/gen_vk_format_table.py:172 | two strictly sorted permutations of the same items are equal, so any sorting algorithm gives this order |
| `VkFormatTable.CasesOf` | src/libANGLE/renderer/vulkan/gen_vk_format_table.py:171-172 | on success, case i is the case of item i; on failure, some item's case failed with that error |
| `VkFormatTable.VkCases` | src/libANGLE/renderer/vulkan/gen_vk_format_table.py:171-172 | on success there are as many cases as items, their IDs strictly increase, and case i is the case of the i-th item in sorted order |
| `VkFormatTable.VkCasesOnePerEntry` | src/libANGLE/renderer/vulkan/gen_vk_format_table.py:171-172 | there are as many cases as entries in the inverse table, their IDs strictly increase, and every entry has a case with its ID that is that entry's case |
| `VkFormatTable.VkCasesFailIff` | src/libANGLE/renderer/vulkan/gen_vk_format_table.py:171-172 | the case list fails exactly when the case of some entry fails |
| `PyStr.LessIrreflexive` | src/libANGLE/renderer/vulkan/gen_vk_format_table.py:172 | no string sorts before itself |
| `PyStr.LessAsymmetric` | src/libANGLE/renderer/vulkan/gen_vk_format_table.py:172 | two strings never sort before each other |
| `PyStr.LessTransitive` | src/libANGLE/renderer/vulkan/gen_vk_format_table.py:172 | string order is transitive |
| `PyStr.LessTotal` | src/libANGLE/renderer/vulkan/gen_vk_format_table.py:172 | any two distinct strings are ordered one way or the other |
| `Loader.Pre` | scripts/generate_loader.py:31-32 | for a command at least as long as the API name, the result starts with the prefix, has length len(prefix) + len(cmd) - len(api), and continues with the command after its first len(api) characters; a shorter command gives the prefix alone |
| `Loader.ResolvePrefix` | scripts/generate_loader.py:29-30 | a missing prefix defaults to the API name; a given prefix is used as it is |
| `Loader.DefaultPrefixIsIdentity` | scripts/generate_loader.py:29-32 | with the prefix defaulted to the API name, `pre(cmd) == cmd` for every command that starts with the API name |
| `Loader.PreInjective` | scripts/generate_loader.py:31-32 | two commands that start with the API name and have the same substituted name are equal |
| `PyStr.Upper` | scripts/generate_loader.py:34 | the upper-cased name has the same length, upper-cases each ASCII letter in place, and holds no lower-case ASCII letter |
| `Loader.VarProtos` | scripts/generate_loader.py:34 | one `extern PFN<UPPER>PROC <ns><pre>;` line per command, in command order |
| `Loader.VarDefs` | scripts/generate_loader.py:56 | one `PFN<UPPER>PROC <ns><pre>;` line per command, in command order |
| `Loader.Setters` | scripts/generate_loader.py:58-59 | one assignment line per command, in command order |
| `Loader.WriteHeader` | scripts/generate_loader.py:26-45 | the header holds one line per command, line i being `extern PFN<upper(cmd_i)>PROC <ns><pre(cmd_i)>;` with the prefix resolved as above |
| `Loader.WriteSource` | scripts/generate_loader.py:47-71 | the definitions and the setters each hold one line per command; definition i declares `ns + pre(cmd_i)` of type `PFN<upper(cmd_i)>PROC`, and setter i assigns that variable from `loadProc("<pre(cmd_i)>")` cast to that type |
| `Loader.HeaderMatchesSource` | scripts/generate_loader.py:26-59 | header, definitions and setters are as long as the command list; line i of the header is `extern ` + definition i; definition i declares `ns + pre(cmd_i)` of type `PFN<upper(cmd_i)>PROC`; setter i assigns that variable, casts to that type and passes `pre(cmd_i)` to `loadProc` |
| `Loader.VariablesDeclaredOnce` | scripts/generate_loader.py:34-59 | for distinct commands that all start with the API name, the declared variable names are distinct, so each declared variable has exactly one definition and one assignment |
| `PyStr.DecimalString` | scripts/generate_loader.py:79 | a non-empty string of decimal digits with no leading zero |
| `PyStr.DecimalRoundTrip` | scripts/generate_loader.py:79 | reading back the decimal string of n gives n |
| `Loader.FeatureRequests` | scripts/generate_loader.py:78-84 | one request per version, in loop order, whose annotation is `<major>_<minor>` and whose feature name is `EGL_VERSION_` followed by the annotation |
| `Loader.EglFeatureNames` | scripts/generate_loader.py:78-84 | the features requested are exactly `EGL_VERSION_1_0` through `EGL_VERSION_1_5`, in that order, each with its annotation |
| `Loader.GenLibEglLoader` | scripts/generate_loader.py:91-92 | header, definitions and setters are as long as the command list, header line i is `extern ` + definition i, and the definition of a command `egl<Rest>` is `PFN<upper(cmd)>PROC EGL_<Rest>;` |
| `Loader.EglLoaderNames` | scripts/generate_loader.py:91-92 | for libEGL (API "egl", no namespace tag, prefix "EGL_"), the declaration and the setter of a command `egl<Rest>` use variable `EGL_<Rest>` and type `PFN<UPPER>PROC`, and the setter loads `"EGL_<Rest>"` |

## Left out

- Reading the JSON tables and the inverse table (`angle_format.load_json`, `load_inverse_table`): the tables are parameters. A dictionary's items are a sequence of pairs with distinct keys.
- Python `str.format`, `"\n".join` and the C++ text templates: the model keeps the structured content of each case block and the per-command lines, not the rendered file text.
- `angle_format.get_internal_format_initializer` and `angle_format.get_vertex_copy_function`: foreign module, kept as uninterpreted total functions. An exception raised inside them is not modelled.
- All file writes, `open`/`close`, `registry_xml.path_to` and the output paths: I/O.
- `registry_xml.RegistryXML`, `AddCommands`, `AddExtensionCommands`, `supported_egl_extensions` and `get_all_commands`: the registry is foreign. Command deduplication happens there, so the command list is a parameter. `Loader.FeatureRequests` models only the requests the version loop makes.
- The `date.today().year` stamp, `sys.argv[0]`, the `inputs` argv handling that prints and exits, and `main`: clock, process environment and I/O.
- `gles_preamble`, `egl_preamble` and the data-source name strings: constant template text, never inspected by the logic.
- src/common/system_utils.h: declarations of OS services only; it is not part of this model.
- PyStr.Upper: models `str.upper()` on ASCII letters only, because command names are ASCII identifiers. Unicode case mapping is not modelled.
- VkFormatTable.SortItems: sorts by ANGLE ID alone. Python sorts `(id, gl)` tuples, but the IDs are dictionary keys and so never tie; `SortedPermutationUnique` shows the order does not depend on the sorting algorithm.
