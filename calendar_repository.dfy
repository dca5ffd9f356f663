/** `ChurchCalendar::CalendarRepository`: maps a calendar name to a calendar
    assembled from the layered sanctorale data sources and the temporale
    options of the name's configuration entry. */
module ChurchCalendar {
  import opened Wrappers
  import opened Calendarium

  /** One element of an entry's `sanctorale` list: a hash that may hold a
      `file` key (a file name relative to the data path) and a `packaged` key
      (the identifier of a dataset bundled with calendarium-romanum). */
  datatype DataSpec = DataSpec(file: Option<string>, packaged: Option<string>)

  /** One entry of the configuration map, by the keys the repository reads. */
  datatype CalendarConfig = CalendarConfig(
    sanctorale: Option<seq<DataSpec>>,
    temporaleExtensions: Option<seq<string>>,
    transferToSunday: Option<seq<string>>)

  /** What a lookup returns: the calendar paired with the entry it was built from. */
  datatype CalendarFacade = CalendarFacade(calendar: Calendar, config: CalendarConfig)

  /** What a lookup can raise. */
  datatype Error =
    | KeyNotFound(key: string)          // KeyError: the name is not configured
    | MissingSanctorale(key: string)    // the entry has no `sanctorale` list to collect over
    | InvalidSpec(spec: DataSpec)       // "Invalid data source specification"
    | DataLoadError(path: string)       // the sanctorale file could not be loaded
    | UnknownPackagedData(id: string)   // no bundled dataset by that identifier
    | UnknownExtension(name: string)    // `constantize` found no such extension
  {
    /** The failures of a single data source. */
    predicate IsDataError() {
      InvalidSpec? || DataLoadError? || UnknownPackagedData?
    }
  }

  /** Every name is a known extension. */
  ghost predicate AllKnown(registry: map<string, Extension>, names: seq<string>) {
    forall i :: 0 <= i < |names| ==> names[i] in registry
  }

  /** `es` holds, position by position, the extension each name denotes. */
  ghost predicate Resolves(registry: map<string, Extension>, names: seq<string>, es: seq<Extension>) {
    && |es| == |names|
    && forall i :: 0 <= i < |names| ==> names[i] in registry && es[i] == registry[names[i]]
  }

  /** The name at `i` is the first one the registry does not know. */
  ghost predicate FirstUnknownAt(registry: map<string, Extension>, names: seq<string>, i: int) {
    && 0 <= i < |names|
    && names[i] !in registry
    && forall j :: 0 <= j < i ==> names[j] in registry
  }

  /** `extensions.collect { |name| "...Extensions::#{name}".constantize }`: the
      names are resolved in order, and the first unknown one raises. */
  function ResolveExtensions(registry: map<string, Extension>, names: seq<string>): (r: Result<seq<Extension>, Error>)
    ensures r.Success? <==> AllKnown(registry, names)
    ensures r.Success? ==> Resolves(registry, names, r.value)
    ensures r.Failure? ==> exists i :: FirstUnknownAt(registry, names, i) && r.error == UnknownExtension(names[i])
  {
    if names == [] then Success([])
    else if names[0] !in registry then
      assert FirstUnknownAt(registry, names, 0);
      Failure(UnknownExtension(names[0]))
    else
      var rest := ResolveExtensions(registry, names[1..]);
      if rest.Failure? then
        assert exists i :: FirstUnknownAt(registry, names, i) && rest.error == UnknownExtension(names[i]) by {
          var i :| FirstUnknownAt(registry, names[1..], i) && rest.error == UnknownExtension(names[1..][i]);
          assert FirstUnknownAt(registry, names, i + 1);
        }
        Failure(rest.error)
      else
        Success([registry[names[0]]] + rest.value)
  }

  /** `transfers.map { |t| t.to_sym }`. */
  function ToSymbols(rules: seq<string>): (r: seq<Symbol>)
    ensures |r| == |rules|
    ensures forall i :: 0 <= i < |rules| ==> r[i].name == rules[i]
  {
    if rules == [] then [] else [Symbol(rules[0])] + ToSymbols(rules[1..])
  }

  /** What `build_temporale_options(config)` returns, or raises, for an entry
      when the extension constants are those of `registry`. */
  function TemporaleOptionsOf(registry: map<string, Extension>, config: CalendarConfig): (r: Result<Option<TemporaleOptions>, Error>)
    ensures r.Failure? <==> config.temporaleExtensions.Some? && !AllKnown(registry, config.temporaleExtensions.value)
    ensures r.Failure? ==> exists i :: FirstUnknownAt(registry, config.temporaleExtensions.value, i)
                                      && r.error == UnknownExtension(config.temporaleExtensions.value[i])
    ensures r.Success? ==> (r.value.None? <==> config.temporaleExtensions.None? && config.transferToSunday.None?)
    ensures r.Success? && r.value.Some? ==>
              && (r.value.value.extensions.Some? <==> config.temporaleExtensions.Some?)
              && (r.value.value.transferToSunday.Some? <==> config.transferToSunday.Some?)
    ensures r.Success? && r.value.Some? && config.temporaleExtensions.Some? ==>
              r.value.value.extensions.Some? &&
              Resolves(registry, config.temporaleExtensions.value, r.value.value.extensions.value)
    ensures r.Success? && r.value.Some? && config.transferToSunday.Some? ==>
              r.value.value.transferToSunday == Some(ToSymbols(config.transferToSunday.value))
  {
    var transfers := if config.transferToSunday.Some? then Some(ToSymbols(config.transferToSunday.value)) else None;
    match config.temporaleExtensions
    case None =>
      if transfers.None? then Success(None) else Success(Some(TemporaleOptions(None, transfers)))
    case Some(names) =>
      var es :- ResolveExtensions(registry, names);
      Success(Some(TemporaleOptions(Some(es), transfers)))
  }

  class CalendarRepository {
    /** The parsed configuration: calendar name to entry. Set once, never changed. */
    const calendars: map<string, CalendarConfig>
    /** The directory that `file` data sources are relative to. */
    const path: string
    /** The sanctorale loader and the rest of the library the lookups call. */
    const lib: Library

    /** `CalendarRepository.new(config, data_path)`. */
    constructor (config: map<string, CalendarConfig>, dataPath: string, library: Library)
      ensures calendars == config && path == dataPath && lib == library
    {
      calendars := config;
      path := dataPath;
      lib := library;
    }

    /** `keys`, delegated to the configuration map. */
    function Keys(): (ks: set<string>)
      ensures forall k :: k in ks <==> k in calendars
    {
      calendars.Keys
    }

    /** `has_key?`, delegated to the configuration map. */
    predicate HasKey(key: string)
      ensures HasKey(key) <==> key in calendars
    {
      key in calendars
    }

    /** `metadata`: the configuration map given at construction. */
    function Metadata(): (m: map<string, CalendarConfig>)
      ensures m == calendars
    {
      calendars
    }

    /** The location a `file` data source is loaded from. */
    function FilePath(file: string): string {
      lib.join(path, file)
    }

    /** `load_data(spec)`: a `file` source is loaded from the data path, else a
        `packaged` source from the bundled data, else the spec is invalid. */
    function LoadData(spec: DataSpec): (r: Result<Sanctorale, Error>)
      ensures spec.file.Some? ==> (r.Success? <==> lib.loadFromFile(FilePath(spec.file.value)).Some?)
      ensures spec.file.Some? && r.Success? ==> lib.loadFromFile(FilePath(spec.file.value)) == Some(r.value)
      ensures spec.file.None? && spec.packaged.Some? ==> (r.Success? <==> lib.packagedData(spec.packaged.value).Some?)
      ensures spec.file.None? && spec.packaged.Some? && r.Success? ==> lib.packagedData(spec.packaged.value) == Some(r.value)
      ensures r == Failure(InvalidSpec(spec)) <==> spec.file.None? && spec.packaged.None?
      ensures spec.file.Some? && r.Failure? ==> r.error == DataLoadError(FilePath(spec.file.value))
      ensures spec.file.None? && spec.packaged.Some? && r.Failure? ==> r.error == UnknownPackagedData(spec.packaged.value)
      ensures r.Failure? ==> r.error.IsDataError()
    {
      if spec.file.Some? then
        var p := FilePath(spec.file.value);
        match lib.loadFromFile(p)
        case Some(s) => Success(s)
        case None => Failure(DataLoadError(p))
      else if spec.packaged.Some? then
        match lib.packagedData(spec.packaged.value)
        case Some(s) => Success(s)
        case None => Failure(UnknownPackagedData(spec.packaged.value))
      else
        Failure(InvalidSpec(spec))
    }

    /** `specs.collect { |spec| load_data(spec) }`: one layer per spec, in the
        order of the specs; the first spec that fails fails the whole list. */
    function LoadAll(specs: seq<DataSpec>): (r: Result<seq<Sanctorale>, Error>)
      ensures r.Success? <==> forall i :: 0 <= i < |specs| ==> LoadData(specs[i]).Success?
      ensures r.Success? ==> |r.value| == |specs| &&
                             forall i :: 0 <= i < |specs| ==> LoadData(specs[i]) == Success(r.value[i])
      ensures r.Failure? ==> exists i :: 0 <= i < |specs| && LoadData(specs[i]) == Failure(r.error) &&
                                         forall j :: 0 <= j < i ==> LoadData(specs[j]).Success?
    {
      if specs == [] then Success([])
      else
        var first := LoadData(specs[0]);
        if first.Failure? then Failure(first.error)
        else
          var rest := LoadAll(specs[1..]);
          if rest.Failure? then
            assert exists i :: 0 <= i < |specs| && LoadData(specs[i]) == Failure(rest.error) &&
                               forall j :: 0 <= j < i ==> LoadData(specs[j]).Success? by {
              var i :| 0 <= i < |specs[1..]| && LoadData(specs[1..][i]) == Failure(rest.error) &&
                       forall j :: 0 <= j < i ==> LoadData(specs[1..][j]).Success?;
              forall j | 0 <= j < i + 1 ensures LoadData(specs[j]).Success? {
                if j > 0 { assert specs[j] == specs[1..][j - 1]; }
              }
              assert LoadData(specs[i + 1]) == Failure(rest.error);
            }
            Failure(rest.error)
          else
            Success([first.value] + rest.value)
    }

    /** `build_temporale_options(config)`: starts from an empty options hash,
        stores `:extensions` when the entry has `temporale_extensions`, stores
        `:transfer_to_sunday` when it has `transfer_to_sunday`, and returns the
        hash only if it holds a key. */
    method BuildTemporaleOptions(config: CalendarConfig) returns (r: Result<Option<TemporaleOptions>, Error>)
      ensures r == TemporaleOptionsOf(lib.extensions, config)
    {
      var options := TemporaleOptions(None, None);
      if config.temporaleExtensions.Some? {
        var resolved := ResolveExtensions(lib.extensions, config.temporaleExtensions.value);
        if resolved.Failure? {
          return Failure(resolved.error);
        }
        options := options.(extensions := Some(resolved.value));
      }
      if config.transferToSunday.Some? {
        options := options.(transferToSunday := Some(ToSymbols(config.transferToSunday.value)));
      }
      if options.KeyCount() > 0 {
        r := Success(Some(options));
      } else {
        r := Success(None);
      }
    }

    /** `repository[key]`: the calendar configured under `key`, paired with its entry. */
    function Lookup(key: string): (r: Result<CalendarFacade, Error>)
      ensures key !in calendars <==> r == Failure(KeyNotFound(key))
      ensures key in calendars && calendars[key].sanctorale.None? <==> r == Failure(MissingSanctorale(key))
      ensures r.Success? ==> key in calendars && r.value.config == calendars[key]
      ensures r.Success? <==>
                && key in calendars
                && calendars[key].sanctorale.Some?
                && LoadAll(calendars[key].sanctorale.value).Success?
                && TemporaleOptionsOf(lib.extensions, calendars[key]).Success?
      ensures r.Success? ==>
                && calendars[key].sanctorale.Some?
                && var specs := calendars[key].sanctorale.value;
                && LoadAll(specs).Success?
                && TemporaleOptionsOf(lib.extensions, calendars[key]).Success?
                && r.value.calendar == lib.perpetualCalendar(lib.createLayered(LoadAll(specs).value),
                                                             TemporaleOptionsOf(lib.extensions, calendars[key]).value)
    {
      if key !in calendars then Failure(KeyNotFound(key))
      else
        var config := calendars[key];
        if config.sanctorale.None? then Failure(MissingSanctorale(key))
        else
          var data :- LoadAll(config.sanctorale.value);
          var sanctorale := lib.createLayered(data);
          var options :- TemporaleOptionsOf(lib.extensions, config);
          Success(CalendarFacade(lib.perpetualCalendar(sanctorale, options), config))
    }
  }
}
