# CumulusCI source tracking, SFDX wrapper and Marketing Cloud user info, in Dafny

This project models three small CumulusCI tasks and proves what they promise.

- **ListChanges / RetrieveChanges** (`cumulusci/tasks/salesforce/sourcetracking.py`).
  The task builds an exclude-pattern list from the user's excludes, the excluded
  namespaces and the project's source-ignore list. It filters the SourceMember
  records of a scratch org by include and exclude patterns and counts the records
  it ignored. For a retrieve, it groups the kept records by metadata type into an
  insertion-ordered `type_members` dictionary. It then reads the existing
  `package.xml` entries into `merged_type_members` and appends the new members
  onto them. The types handed to the package generator come from `type_members`
  alone.
- **SFDX tasks** (`cumulusci/tasks/sfdx.py`). These build the
  `sfdx <command> [-u <username>] [<extra>]` command line. For a non-scratch org
  they inject the org's instance URL and access token into the environment
  instead. A JSON task always runs `force:mdapi:deploy --json`. Each output line
  that parses as JSON is handed on once; a line that does not parse is logged
  and dropped.
- **GetUserInfoTask** (`cumulusci/tasks/marketing_cloud/get_user_info.py`). The
  task deletes `rest` and `application` from the response dictionary in place
  and returns that same dictionary.

Files:

- `wrappers.dfy`: `Option`, `Result` and the Python exceptions raised.
- `json.dfy`: JSON values.
- `ordered_map.dfy`: Python's insertion-ordered dictionaries.
- `sourcetracking.dfy`: the two source-tracking tasks.
- `sfdx.dfy`: the SFDX wrapper tasks.
- `get_user_info.dfy`: the Marketing Cloud payload sanitiser.

Regular-expression search is a function parameter `search`, where `search(p, s)`
stands for `re.search(p, s) is not None`. JSON parsing is a function parameter
`loads`, where `None` stands for `json.loads` raising. Every property is proved
for all such functions.

Three Python objects are modelled as classes because the code updates them in
place: the exclude list (`PatternList`), which `_exclude` and `options["exclude"]`
both hold; the JSON task; and the payload dictionary. Local dictionaries that
the code fills in loops are `OrderedMap` values that the methods reassign.

## Model

| member | source | states |
|---|---|---|
| `OrderedMaps.OrderedMap.PutSpec` | cumulusci/tasks/salesforce/sourcetracking.py:137 | After `d[k] = v`, `k` maps to `v` and every other key keeps its value. An existing `k` keeps its place in the key order; a new one goes last. A well-formed dict stays well formed. |
| `OrderedMaps.OrderedMap.AppendToSpec` | cumulusci/tasks/salesforce/sourcetracking.py:117 | After the `defaultdict(list)` append, `k`'s list (`[]` when missing) gains the item at its end and every other key keeps its value. A new `k` goes last in the key order, and a well-formed dict stays well formed. |
| `SourceTracking.NamespacePatternsAt` | cumulusci/tasks/salesforce/sourcetracking.py:30-32 | Excluded namespace `i` contributes exactly the patterns at positions `2i` (CustomField) and `2i+1` (CompactLayout), in namespace order. |
| `SourceTracking.ChangeTask.constructor` | cumulusci/tasks/salesforce/sourcetracking.py:22-34 | `_init_options`: `_exclude` is the same object as `options["exclude"]`. Its contents are the user excludes, then each namespace's two patterns, then the source-ignore list. |
| `SourceTracking.ChangeTask.FilterChanges` | cumulusci/tasks/salesforce/sourcetracking.py:63-76 | The loop's result equals the filter specification `Filter` on the records, the include list and the exclude list. |
| `SourceTracking.FilterSubsequence` | cumulusci/tasks/salesforce/sourcetracking.py:63-76 | The filter result is the records at a strictly increasing list of positions. A position is among them exactly when its record passes the include test and matches no exclude pattern. |
| `SourceTracking.FilterSound` | cumulusci/tasks/salesforce/sourcetracking.py:68-75 | Every kept record's `"Type: Name"` matches some include pattern when the include list is non-empty, and it matches no exclude pattern. |
| `SourceTracking.FilterKeepsAll` | cumulusci/tasks/salesforce/sourcetracking.py:63-76 | With empty include and exclude lists, the filter returns the records unchanged. |
| `SourceTracking.FilterPartition` | cumulusci/tasks/salesforce/sourcetracking.py:57 | The kept count plus the dropped count equals the number of records. |
| `SourceTracking.ExcludedNamespaceDropped` | cumulusci/tasks/salesforce/sourcetracking.py:29-34 | No kept record matches the CustomField or CompactLayout pattern of an excluded namespace, or any source-ignore entry, when the exclude list is the one `_init_options` builds. |
| `SourceTracking.ChangeTask.ListChanges` | cumulusci/tasks/salesforce/sourcetracking.py:42-61 | `_run_task` lists the filtered records. The ignored count is never negative and equals the number of records the filter dropped. |
| `SourceTracking.TypesInOrderSpec` | cumulusci/tasks/salesforce/sourcetracking.py:111-117 | The grouped types are distinct. A type appears exactly when some kept record has it, which is exactly when its group of names is non-empty. |
| `SourceTracking.GroupSizesSum` | cumulusci/tasks/salesforce/sourcetracking.py:111-117 | The sizes of the groups add up to the number of kept records. |
| `SourceTracking.GroupByType` | cumulusci/tasks/salesforce/sourcetracking.py:111-117 | The `type_members` keys are the kept records' types in order of first occurrence. Each value lists the names of that type's records in their original order. |
| `SourceTracking.LoadTypesSpec` | cumulusci/tasks/salesforce/sourcetracking.py:126-137 | Reading fails exactly when an entry with non-empty members has no name. Otherwise a name is a key exactly when some entry with that name has non-empty members. Its value is the member list of the last such entry. |
| `SourceTracking.LoadTypesErrorIsKeyError` | cumulusci/tasks/salesforce/sourcetracking.py:137 | When the `<types>` entries are read as a list (a lone `<types>` taken as a one-element list), the only exception reading the manifest raises is KeyError for `name`. As written, a lone `<types>` with members raises TypeError instead (see Findings). |
| `SourceTracking.ReadManifest` | cumulusci/tasks/salesforce/sourcetracking.py:126-137 | The loop (a lone member string becomes a one-element list; entries with missing or empty members are skipped) computes `LoadTypes` of the manifest entries. |
| `SourceTracking.MergeAllSpec` | cumulusci/tasks/salesforce/sourcetracking.py:139-144 | Existing types keep their places and new types follow in order. Each entry is its existing members followed by its new ones. |
| `SourceTracking.MergeMembers` | cumulusci/tasks/salesforce/sourcetracking.py:139-144 | The merge loop yields the existing keys plus the new ones not already present. Every type's list is its existing members followed by its new members. |
| `SourceTracking.MetadataTypes` | cumulusci/tasks/salesforce/sourcetracking.py:146-147 | One `MetadataType(name, members)` per `type_members` entry, in the dict's order. |
| `SourceTracking.ChangeTask.GetApi` | cumulusci/tasks/salesforce/sourcetracking.py:105-150 | With no kept record the result is `None`, whatever the manifest holds. Otherwise, with a lone `<types>` read as a one-element list, the call fails exactly when the manifest read raises KeyError, and when it does not fail it returns a request. That request holds the API version and the kept records' groups alone, independent of the manifest. As written, a lone `<types>` with members raises TypeError instead (see Findings). |
| `SourceTracking.SingleTypeManifestFails` | cumulusci/tasks/salesforce/sourcetracking.py:127-132 | As written, a manifest with one `<types>` element that has members raises TypeError, while the same element in a list reads fine. |
| `SourceTracking.SingleTypeManifestLoads` | cumulusci/tasks/salesforce/sourcetracking.py:127-137 | Read as a one-element list, a single named `<types>` element contributes exactly its members under its name. |
| `Sfdx.BaseCommand` | cumulusci/tasks/sfdx.py:33-37 | The base command is `"sfdx " + options["command"]`. A missing command raises KeyError. |
| `Sfdx.GetCommand` | cumulusci/tasks/sfdx.py:53-58 | An org task on a scratch org appends `" -u " + username` to the base command. Otherwise the command is the base command. |
| `Sfdx.CredentialEnvSpec` | cumulusci/tasks/sfdx.py:60-66 | For a non-scratch org the environment gains `SFDX_INSTANCE_URL` (instance URL) and `SFDX_DEFAULTUSERNAME` (access token), and every other variable is unchanged. Otherwise the environment is the inherited one. |
| `Sfdx.GetEnv` | cumulusci/tasks/sfdx.py:60-66 | The in-place updates produce `CredentialEnv`. Only the two SFDX keys can be added. |
| `Sfdx.CredentialsPassedOnce` | cumulusci/tasks/sfdx.py:53-66 | A scratch org is passed by the `-u` flag with the environment untouched. Any other org is passed through the environment with no flag. |
| `Sfdx.RunTask` | cumulusci/tasks/sfdx.py:39-45 | The subprocess gets `CredentialEnv` and `sfdx <command>`, then the `-u` flag if any, then `" " + extra` only when extra is set and non-empty. A missing command raises KeyError. |
| `Sfdx.JsonTaskIgnoresConfiguredCommand` | cumulusci/tasks/sfdx.py:69-74 | Whatever command was configured, a JSON task runs `sfdx force:mdapi:deploy --json`, plus the `-u` flag for a scratch org. |
| `Sfdx.SfdxJsonTask.constructor` | cumulusci/tasks/sfdx.py:72-74 | A new JSON task's options are the configured ones with `command` overwritten. Nothing has been processed yet. |
| `Sfdx.SfdxJsonTask.InitOptions` | cumulusci/tasks/sfdx.py:72-74 | `options["command"]` is always overwritten with the deploy command. The other options are as configured. |
| `Sfdx.SfdxJsonTask.ProcessData` | cumulusci/tasks/sfdx.py:85-86 | The parsed value is handed on once. |
| `Sfdx.SfdxJsonTask.ProcessOutput` | cumulusci/tasks/sfdx.py:76-83 | An unparsable line is logged and not processed. A parsable line's value is processed exactly once. |
| `MarketingCloud.Payload.Delete` | cumulusci/tasks/marketing_cloud/get_user_info.py:43-44 | `del d[key]` removes the key, and reports (KeyError) when it was absent. |
| `MarketingCloud.SanitizePayload` | cumulusci/tasks/marketing_cloud/get_user_info.py:34-45 | On success the caller's own dictionary comes back without `rest` or `application`; every other key keeps its value and none is added. A missing `rest` raises KeyError with nothing changed. A missing `application` raises KeyError after `rest` is already deleted. |

## Left out

- Network I/O is not modelled: the Marketing Cloud `GET /userinfo` request, its error logging and re-raise, and the Tooling API query. The query result is a parameter.
- `GetUserInfoTask._run_task` is left out: it is the HTTP call plus storing the sanitised payload in `return_values`.
- File I/O is not modelled: reading `package.xml` through xmltodict, and writing the regenerated `package.xml` in `RetrieveChanges._run_task`. The parsed `types` field is a parameter. A missing file and a manifest without `<types>` are both `NoTypes`.
- A `<Package>` element with no children is not modelled: the parser yields `None` and `.get` raises. Neither is a `<members/>` element that parses to `None` or to a dictionary.
- `PackageXmlGenerator`, `ApiRetrieveUnpackaged`, `process_list_arg`, `safe_json_from_response`, `Command._run_command` and `Command._get_env` are not part of this model. The option lists are taken as already split, the base environment is a parameter, and the retrieve request is the API version plus the types handed to the generator.
- `MetadataType.__call__` is left out. It renders a Python list representation into XML.
- `RetrieveChanges._init_options` is left out: it only defaults `api_version`. The API version is a parameter of `GetApi`.
- Regular-expression semantics and JSON parsing are left out; both are function parameters.
- Logging is left out. `SfdxJsonTask.failedLines` and `processed` record only what the JSON task logged as unparsable and what it handed to `_process_data`.
- The task base classes and their `super()` chain are not modelled. The base `_init_options` is taken to copy the configured options, and the option values are strings.
- ListChanges and RetrieveChanges share one class, `ChangeTask`, and the three SFDX task classes are one `TaskKind`, because the model has no inheritance.
- ReadManifest and GetApi read a lone `<types>` element as a one-element list. They therefore do not raise the TypeError that the code as written raises for such a manifest (see Findings); `ReadManifestAsWritten` models that behaviour separately.
- SourceMember records carry only `MemberType` and `MemberName`; any other fields of the query result are not modelled.

## Findings

| source | as written | input that shows it | evidently intended | confidence | as-written member | corrected member |
|---|---|---|---|---|---|---|
| cumulusci/tasks/salesforce/sourcetracking.py:127-132 | `for mdtype in Package.get("types", [])` assumes a list. With exactly one `<types>` element, xmltodict yields a single dictionary. The loop then walks its keys, and `"members"["members"]` raises TypeError. | an existing `package.xml` holding one `<types>` with `<members>Foo</members><name>ApexClass</name>`, plus one changed record | treat a single `<types>` element as a one-element list, as the code already does for a single `<members>` string | high, not executed | `SourceTracking.SingleTypeManifestFails` (on `ReadManifestAsWritten`) | `SourceTracking.SingleTypeManifestLoads` (on `TypeEntries`, used by `ReadManifest` and `GetApi`) |
