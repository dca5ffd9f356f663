/** Properties of the calendar lookup that relate several operations or
    several calls. */
module RepositoryProperties {
  import opened Wrappers
  import opened Calendarium
  import opened ChurchCalendar

  /** `keys`, `has_key?`, `metadata` and the lookup's `KeyError` agree on which
      names are configured. */
  lemma KeysAgreeWithLookup(repo: CalendarRepository, key: string)
    ensures key in repo.Keys() <==> repo.HasKey(key)
    ensures key in repo.Metadata() <==> repo.HasKey(key)
    ensures !repo.HasKey(key) <==> repo.Lookup(key) == Failure(KeyNotFound(key))
  {
  }

  /** The entry in a successful lookup's facade is the one `metadata` shows. */
  lemma LookupConfigIsMetadataEntry(repo: CalendarRepository, key: string)
    requires repo.Lookup(key).Success?
    ensures key in repo.Metadata() && repo.Lookup(key).value.config == repo.Metadata()[key]
  {
  }

  /** In a successful lookup, layer `i` of the composition comes from spec `i`
      of the entry: from `join(path, file)` when the spec names a file, even if
      it also names a package, and from the bundled dataset otherwise. */
  lemma LookupLayers(repo: CalendarRepository, key: string, i: int)
    requires repo.Lookup(key).Success?
    requires 0 <= i < |repo.calendars[key].sanctorale.value|
    ensures var specs := repo.calendars[key].sanctorale.value;
            var layers := repo.LoadAll(specs).value;
            && |layers| == |specs|
            && (specs[i].file.Some? ==>
                  repo.lib.loadFromFile(repo.lib.join(repo.path, specs[i].file.value)) == Some(layers[i]))
            && (specs[i].file.None? ==>
                  specs[i].packaged.Some? && repo.lib.packagedData(specs[i].packaged.value) == Some(layers[i]))
  {
  }

  /** The first data spec, in configuration order, that cannot be loaded
      decides the lookup's error, whatever the later specs and the temporale
      options would do. */
  lemma FirstFailingSpecFailsLookup(repo: CalendarRepository, key: string, i: int)
    requires key in repo.calendars && repo.calendars[key].sanctorale.Some?
    requires 0 <= i < |repo.calendars[key].sanctorale.value|
    requires repo.LoadData(repo.calendars[key].sanctorale.value[i]).Failure?
    requires forall j :: 0 <= j < i ==> repo.LoadData(repo.calendars[key].sanctorale.value[j]).Success?
    ensures repo.Lookup(key) == Failure(repo.LoadData(repo.calendars[key].sanctorale.value[i]).error)
  {
  }

  /** A spec with neither `file` nor `packaged` fails the whole lookup with a
      data-source error, and with `InvalidSpec` of that spec when every spec
      before it loads. */
  lemma InvalidSpecFailsLookup(repo: CalendarRepository, key: string, i: int)
    requires key in repo.calendars && repo.calendars[key].sanctorale.Some?
    requires 0 <= i < |repo.calendars[key].sanctorale.value|
    requires repo.calendars[key].sanctorale.value[i] == DataSpec(None, None)
    ensures repo.Lookup(key).Failure? && repo.Lookup(key).error.IsDataError()
    ensures (forall j :: 0 <= j < i ==> repo.LoadData(repo.calendars[key].sanctorale.value[j]).Success?) ==>
              repo.Lookup(key) == Failure(InvalidSpec(DataSpec(None, None)))
  {
  }

  /** An extension name the registry does not know fails the lookup instead of
      being dropped; once the data sources have loaded, the error names the
      first unknown extension of the entry. */
  lemma UnknownExtensionFailsLookup(repo: CalendarRepository, key: string, k: int)
    requires key in repo.calendars && repo.calendars[key].temporaleExtensions.Some?
    requires 0 <= k < |repo.calendars[key].temporaleExtensions.value|
    requires repo.calendars[key].temporaleExtensions.value[k] !in repo.lib.extensions
    ensures repo.Lookup(key).Failure?
    ensures var config := repo.calendars[key];
            config.sanctorale.Some? && repo.LoadAll(config.sanctorale.value).Success? ==>
              exists i :: FirstUnknownAt(repo.lib.extensions, config.temporaleExtensions.value, i) &&
                          repo.Lookup(key).error == UnknownExtension(config.temporaleExtensions.value[i])
  {
  }

  /** An explicitly empty `temporale_extensions` list is a present key: the
      options are not `nil`, and their `:extensions` holds the empty list. */
  lemma EmptyExtensionListIsPresent(registry: map<string, Extension>, config: CalendarConfig)
    requires config.temporaleExtensions == Some([]) && config.transferToSunday.None?
    ensures TemporaleOptionsOf(registry, config) == Success(Some(TemporaleOptions(Some([]), None)))
  {
  }

  /** An entry with only `transfer_to_sunday: ["Epiphany"]` gets options that
      hold the symbol `:Epiphany` and no `:extensions` key at all. */
  lemma TransferOnlyOptions(registry: map<string, Extension>, config: CalendarConfig)
    requires config.temporaleExtensions.None? && config.transferToSunday == Some(["Epiphany"])
    ensures TemporaleOptionsOf(registry, config) == Success(Some(TemporaleOptions(None, Some([Symbol("Epiphany")]))))
  {
    assert ToSymbols(["Epiphany"]) == [Symbol("Epiphany")];
  }

  /** Converting the rule names to symbols loses nothing: different lists of
      names give different lists of symbols. */
  lemma ToSymbolsInjective(a: seq<string>, b: seq<string>)
    requires ToSymbols(a) == ToSymbols(b)
    ensures a == b
  {
  }

  /** A `roman` entry layering the packaged `general_roman` dataset under the
      file `local_overrides.yml`, with the data path `/data`: the lookup
      composes exactly those two datasets in that order and passes `nil`
      options. */
  lemma RomanLookup(repo: CalendarRepository, general: Sanctorale, overrides: Sanctorale)
    requires repo.path == "/data"
    requires "roman" in repo.calendars
    requires repo.calendars["roman"] ==
             CalendarConfig(Some([DataSpec(None, Some("general_roman")), DataSpec(Some("local_overrides.yml"), None)]),
                            None, None)
    requires repo.lib.packagedData("general_roman") == Some(general)
    requires repo.lib.loadFromFile(repo.lib.join("/data", "local_overrides.yml")) == Some(overrides)
    ensures repo.Lookup("roman") ==
            Success(CalendarFacade(repo.lib.perpetualCalendar(repo.lib.createLayered([general, overrides]), None),
                                   repo.calendars["roman"]))
  {
    var specs := repo.calendars["roman"].sanctorale.value;
    assert repo.LoadAll(specs).Success?;
    assert repo.LoadAll(specs).value == [general, overrides];
  }
}
