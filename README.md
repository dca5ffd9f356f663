# ChurchCalendar::CalendarRepository in Dafny

A model of the lookup pipeline of the church-calendar API's calendar
repository (`lib/church-calendar/services/calendar_repository.rb`). The
repository holds a configuration map from calendar names to entries, and a
data directory. Looking up a name does four things:

1. It rejects a name that is not configured (`KeyError`).
2. It loads each `sanctorale` data source of the entry, in order. A `file`
   source is loaded from the file name joined to the data directory. A
   `packaged` source is loaded from the datasets bundled with calendarium-romanum.
   A source with neither key is an invalid specification.
3. It builds the temporale options from `temporale_extensions` and
   `transfer_to_sunday`.
4. It layers the loaded sanctorale data and builds a perpetual calendar
   from the layers and the options. It returns that calendar paired with the
   entry, as a facade.

Files:

- `wrappers.dfy` (module `Wrappers`): `Option` and `Result`.
- `calendarium.dfy` (module `Calendarium`): the collaborators as opaque
  types (`Sanctorale`, `Calendar`, `Extension`), Ruby symbols, the
  `temporale_options` hash, and `Library`. `Library` is a record of the
  external operations: `File.join`, the sanctorale loader,
  `CalendariumRomanum::Data`, `SanctoraleFactory.create_layered`,
  `PerpetualCalendar.new`, and the closed set of extension constants. The
  properties below assume nothing about what the loads return or how the
  layering combines its layers. They do assume that `create_layered` and
  `PerpetualCalendar.new` never raise (see "## Left out").
- `calendar_repository.dfy` (module `ChurchCalendar`): the configuration
  entries and data specs, the errors, and the option resolution as
  functions. It also holds the class `CalendarRepository`, whose fields are
  `const` because the Ruby class sets them once in `initialize` and never
  changes them. `load_data`, the `collect` over the specs, and `[]` are pure
  functions. `build_temporale_options` is a method that fills the options
  hash step by step. It is proved equal to the function
  `TemporaleOptionsOf`, which the lookup function uses.
- `repository_properties.dfy` (module `RepositoryProperties`): lemmas that
  relate the lookup to the configuration and to its parts.

Errors are values of `ChurchCalendar.Error`. They are checked in the order
the Ruby method meets them:

- the key;
- a missing `sanctorale` list, where Ruby's `nil.collect` raises;
- each data source in order, where a load failure stops the `collect`;
- the extension names.

Two behaviours of the code are easy to misread. The model follows the code
in both:

- When an entry gives only one of `temporale_extensions` and
  `transfer_to_sunday`, the code leaves the other key out of the options
  hash (`calendar_repository.rb` lines 53-65). It does not store an empty
  list under it. In the model the absent field is `None`, and an explicitly
  empty list is `Some([])`.
- The code does not check that an entry has at least one data source. An
  empty `sanctorale` list reaches `create_layered` with no layers (lines
  25-29), and so it does in the model.

## Model

| member | source | states |
|---|---|---|
| Calendarium.TemporaleOptions.KeyCount | lib/church-calendar/services/calendar_repository.rb:67 | the options hash holds no key exactly when neither option is present, and both keys exactly when both are |
| ChurchCalendar.ResolveExtensions | lib/church-calendar/services/calendar_repository.rb:55-60 | succeeds exactly when every name is a known extension; then the result has one extension per name, in order, each the one its name denotes; otherwise the error names the first unknown name |
| ChurchCalendar.ToSymbols | lib/church-calendar/services/calendar_repository.rb:62-65 | one symbol per rule name, same length and order, each named by its rule |
| ChurchCalendar.TemporaleOptionsOf | lib/church-calendar/services/calendar_repository.rb:52-71 | fails exactly when an extension name is unknown, naming the first such name; the options are nil exactly when the entry has neither key; each option is present exactly when its key is, with resolved extensions and symbolised rules |
| ChurchCalendar.CalendarRepository.constructor | lib/church-calendar/services/calendar_repository.rb:7-11 | the repository keeps the configuration map, the data path and the collaborators it is given |
| ChurchCalendar.CalendarRepository.Keys | lib/church-calendar/services/calendar_repository.rb:17 | exactly the configured names |
| ChurchCalendar.CalendarRepository.HasKey | lib/church-calendar/services/calendar_repository.rb:17 | true exactly for configured names |
| ChurchCalendar.CalendarRepository.Metadata | lib/church-calendar/services/calendar_repository.rb:36-38 | the configuration map given at construction |
| ChurchCalendar.CalendarRepository.LoadData | lib/church-calendar/services/calendar_repository.rb:42-50 | a `file` spec loads from the file joined to the data path, even when it also names a package, and a failed load is `DataLoadError` of that joined path; a `packaged`-only spec loads that bundled dataset, and an unknown identifier is `UnknownPackagedData` of it; a spec with neither key fails with `InvalidSpec` of that spec, and only such a spec does |
| ChurchCalendar.CalendarRepository.LoadAll | lib/church-calendar/services/calendar_repository.rb:25-27 | succeeds exactly when every spec loads; then one layer per spec, in configuration order, each the one its spec loads; otherwise the error is that of the first spec that fails |
| ChurchCalendar.CalendarRepository.BuildTemporaleOptions | lib/church-calendar/services/calendar_repository.rb:52-71 | the options built key by key are those `TemporaleOptionsOf` describes, including its errors |
| ChurchCalendar.CalendarRepository.Lookup | lib/church-calendar/services/calendar_repository.rb:19-34 | fails with `KeyNotFound(key)` exactly when the key is not configured, and with `MissingSanctorale(key)` exactly when its entry has no `sanctorale` list; succeeds exactly when the key is configured, its list is present, every spec loads and every extension is known; a success carries the stored entry and a calendar built from the layered data of all its specs and its resolved options |
| RepositoryProperties.KeysAgreeWithLookup | lib/church-calendar/services/calendar_repository.rb:17-22 | `keys`, `has_key?`, `metadata` and the lookup's key error agree on which names exist |
| RepositoryProperties.LookupConfigIsMetadataEntry | lib/church-calendar/services/calendar_repository.rb:33-38 | the entry in a successful lookup's facade is the one `metadata` shows for that key |
| RepositoryProperties.LookupLayers | lib/church-calendar/services/calendar_repository.rb:25-46 | in a successful lookup, layer i comes from spec i: from the joined file path when it names a file, from the bundled dataset otherwise |
| RepositoryProperties.FirstFailingSpecFailsLookup | lib/church-calendar/services/calendar_repository.rb:25-30 | the first spec in configuration order that fails to load decides the lookup's error, before the options are looked at |
| RepositoryProperties.InvalidSpecFailsLookup | lib/church-calendar/services/calendar_repository.rb:42-48 | a spec with neither `file` nor `packaged` fails the whole lookup, with `InvalidSpec` when every earlier spec loads |
| RepositoryProperties.UnknownExtensionFailsLookup | lib/church-calendar/services/calendar_repository.rb:55-60 | an unknown extension name fails the lookup rather than being dropped; once the data has loaded, the error names the first unknown extension |
| RepositoryProperties.EmptyExtensionListIsPresent | lib/church-calendar/services/calendar_repository.rb:55-71 | an explicitly empty extension list still yields options, holding an empty `:extensions` list |
| RepositoryProperties.TransferOnlyOptions | lib/church-calendar/services/calendar_repository.rb:62-71 | `transfer_to_sunday: ["Epiphany"]` alone yields options holding `:Epiphany` and no `:extensions` key |
| RepositoryProperties.ToSymbolsInjective | lib/church-calendar/services/calendar_repository.rb:64 | different lists of rule names give different lists of symbols |
| RepositoryProperties.RomanLookup | lib/church-calendar/services/calendar_repository.rb:19-34 | a packaged layer under a file layer is composed in that order from the packaged dataset and the file under the data path, with nil options |

## Left out

- `CalendarRepository.load_from` and `YAML.load_file`: file I/O and YAML parsing. The constructor takes the already parsed map.
- The sanctorale loader, `CalendariumRomanum::Data`, `SanctoraleFactory.create_layered` and `PerpetualCalendar.new`: library code that is not part of this model. They are opaque operations in `Library`, so no merge semantics is assumed for the layering.
- `create_layered` and `PerpetualCalendar.new` are total functions in `Library`, so the model assumes they never raise. The lookup's success on valid data and on an empty `sanctorale` list, including `RomanLookup`, rests on that assumption.
- `CalendarFacade` is not part of this model. It is modelled as a plain datatype pairing the calendar with the entry, and it has no behaviour of its own.
- Whether a load fails is decided by the library. A load failure is a `DataLoadError` carrying the joined path. An unknown package identifier is an `UnknownPackagedData`.
- `String#constantize`: Ruby reflection. It is replaced by the closed map `Library.extensions`, where an unknown name is an error.
- `File.join` is an opaque operation on the data path and the file name.
- Shapes of configuration that the model's types cannot express. A data spec is a hash whose `file` and `packaged` values are strings or absent; `nil` and `false`, Ruby's two falsy values, both read as absent. An entry is a hash whose option lists hold strings. These other shapes are outside the model:
  - a data spec that is a string, where `String#[]` matches substrings;
  - a data spec that is `nil`, which raises `NoMethodError`;
  - a truthy `file` value that is not a string, which takes the file branch: `File.join` raises on most such values, but joins the elements of an array as path segments, which the model cannot express;
  - an entry that is `nil`, which raises at line 25.
- The `transfer_to_sunday` names are not checked against any catalogue. The repository does not check them either; what the calendar engine does with an unknown rule is not part of this model.
- ChurchCalendar.CalendarRepository.Keys: returns a set. Ruby's `Hash#keys` is an array in insertion order, and the map does not keep that order.
- ChurchCalendar.CalendarRepository.Metadata: returns the map as an immutable value. Ruby returns the repository's own hash, so a caller that mutates it would change later lookups. That aliasing is not modelled.
- The file system and the bundled data are fixed inside the constant `lib` when the repository is constructed. Ruby re-reads the files on every lookup, so a file changed between two lookups changes the second result. The model cannot express that.
- Concurrency and caching: the source has neither, and the lookup adds no caching.
