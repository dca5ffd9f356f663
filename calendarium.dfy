/** The parts of the calendarium-romanum library, of Ruby's `File` and of Ruby's
    constant lookup that the repository calls. Their internals are not modelled:
    the values they produce are of opaque types, and each operation is a
    function-valued field of `Library`. Nothing is assumed about what the loads
    return or how layering combines layers; since the fields are total
    functions, `createLayered` and `perpetualCalendar` never fail. */
module Calendarium {
  import opened Wrappers

  /** A sanctorale: the fixed-date celebrations loaded from one source, or the
      layered composition of several. */
  type Sanctorale

  /** A `PerpetualCalendar` instance. */
  type Calendar

  /** A class under `CalendariumRomanum::Temporale::Extensions`. */
  type Extension

  /** A Ruby symbol. `String#to_sym` gives a distinct symbol for each distinct
      string, which this constructor captures. */
  datatype Symbol = Symbol(name: string)

  /** The `temporale_options:` hash handed to `PerpetualCalendar.new`. A key the
      hash does not hold is `None`; a key holding an empty list is `Some([])`. */
  datatype TemporaleOptions = TemporaleOptions(
    extensions: Option<seq<Extension>>,
    transferToSunday: Option<seq<Symbol>>)
  {
    /** `options.keys.length`. */
    function KeyCount(): (n: nat)
      ensures n <= 2
      ensures n == 0 <==> extensions.None? && transferToSunday.None?
      ensures n == 2 <==> extensions.Some? && transferToSunday.Some?
    {
      (if extensions.Some? then 1 else 0) + (if transferToSunday.Some? then 1 else 0)
    }
  }

  /** The collaborators of the repository. A load that Ruby would answer by
      raising is `None` here. */
  datatype Library = Library(
    // File.join(directory, name)
    join: (string, string) -> string,
    // SanctoraleLoader#load_from_file(path)
    loadFromFile: string -> Option<Sanctorale>,
    // CalendariumRomanum::Data[id].load
    packagedData: string -> Option<Sanctorale>,
    // SanctoraleFactory.create_layered(*layers)
    createLayered: seq<Sanctorale> -> Sanctorale,
    // PerpetualCalendar.new(sanctorale: s, temporale_options: o)
    perpetualCalendar: (Sanctorale, Option<TemporaleOptions>) -> Calendar,
    // the constants CalendariumRomanum::Temporale::Extensions::<name> that exist
    extensions: map<string, Extension>)
}
