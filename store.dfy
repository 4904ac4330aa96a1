/** The book: a dictionary from "YYYY-MM-DD" keys to the day's record, as both
    revisions keep it in React state.  The stored value may be null (a saved "null"
    parsed back), modelled as None. */
module Store {
  import opened Common
  import Entry

  type Book<E> = map<string, E>

  /** prev || {} */
  function OrEmpty<E>(prev: Option<Book<E>>): Book<E>
  {
    if prev.Some? then prev.value else map[]
  }

  /** The record the update starts from: the stored one, or a fresh empty record. */
  function Current<E>(base: Book<E>, day: string, empty: E): (e: E)
    ensures day in base ==> e == base[day]
    ensures day !in base ==> e == empty
  {
    if day in base then base[day] else empty
  }

  /** updateDay(day, fn) of the earlier revision, and of the React book as corrected:
      only key day changes, to fn applied to its record (seeded from empty if absent). */
  function UpdateDay<E>(prev: Option<Book<E>>, day: string, fn: E -> E, empty: E): (next: Book<E>)
    ensures next.Keys == OrEmpty(prev).Keys + {day}
    ensures next[day] == fn(Current(OrEmpty(prev), day, empty))
    ensures forall k :: k in OrEmpty(prev) && k != day ==> next[k] == OrEmpty(prev)[k]
  {
    var base := OrEmpty(prev);
    base[day := fn(Current(base, day, empty))]
  }

  /** In the React book a day without a record is edited from a fresh empty record: empty
      notes, no photo, no moods, no palette, no manual colours, type "auto", strength 60,
      no swatch.  A day with a record is edited from that record. */
  lemma UpdateSeedsEntry(prev: Option<Book<Entry.Entry>>, day: string, fn: Entry.Entry -> Entry.Entry)
    ensures var next, base := UpdateDay(prev, day, fn, Entry.EmptyEntry()), OrEmpty(prev);
      && (day !in base ==> next[day] == fn(Entry.Entry("", None, [], None, [], "auto", 60.0, None)))
      && (day in base ==> next[day] == fn(base[day]))
  {
  }

  /** In the earlier book a day without a record is edited from empty notes, no photo and
      no moods. */
  lemma UpdateSeedsSimpleEntry(prev: Option<Book<Entry.SimpleEntry>>, day: string, fn: Entry.SimpleEntry -> Entry.SimpleEntry)
    ensures var next, base := UpdateDay(prev, day, fn, Entry.EmptySimpleEntry()), OrEmpty(prev);
      && (day !in base ==> next[day] == fn(Entry.SimpleEntry("", None, [])))
      && (day in base ==> next[day] == fn(base[day]))
  {
  }

  /** updateDay of the React book as written: the copy tolerates a null book but the lookup
      prev[day] does not; None stands for the TypeError thrown on a null book. */
  function UpdateDayAsWritten<E>(prev: Option<Book<E>>, day: string, fn: E -> E, empty: E): (next: Option<Book<E>>)
    ensures prev.None? <==> next.None?
  {
    var copy := OrEmpty(prev);
    match prev
    case None => None
    case Some(p) => Some(copy[day := fn(Current(p, day, empty))])
  }

  /** The two agree on every non-null book; on a null book only the corrected one succeeds. */
  lemma UpdateDayAsWrittenDiffers<E>(prev: Option<Book<E>>, day: string, fn: E -> E, empty: E)
    ensures prev.Some? ==> UpdateDayAsWritten(prev, day, fn, empty) == Some(UpdateDay(prev, day, fn, empty))
    ensures prev.None? ==> UpdateDayAsWritten(prev, day, fn, empty).None?
    ensures prev.None? ==> UpdateDay(prev, day, fn, empty) == map[day := fn(empty)]
  {
  }

  /** Saving a record (fn ignores its argument) twice is the same as saving it once. */
  lemma SaveIdempotent<E>(prev: Option<Book<E>>, day: string, u: E, empty: E)
    ensures var once := UpdateDay(prev, day, _ => u, empty);
            UpdateDay(Some(once), day, _ => u, empty) == once
  {
  }

  /** Updating one day and then another commutes when the days differ. */
  lemma UpdatesCommute<E>(b: Book<E>, d1: string, d2: string, f1: E -> E, f2: E -> E, empty: E)
    requires d1 != d2
    ensures UpdateDay(Some(UpdateDay(Some(b), d1, f1, empty)), d2, f2, empty)
         == UpdateDay(Some(UpdateDay(Some(b), d2, f2, empty)), d1, f1, empty)
  {
    var x := UpdateDay(Some(UpdateDay(Some(b), d1, f1, empty)), d2, f2, empty);
    var y := UpdateDay(Some(UpdateDay(Some(b), d2, f2, empty)), d1, f1, empty);
    assert x.Keys == y.Keys;
    forall k | k in x ensures x[k] == y[k] {
    }
  }

  /** onDelete: the open day's key goes, every other key keeps its record. */
  function DeleteDay<E>(prev: Option<Book<E>>, day: string): (next: Book<E>)
    ensures next.Keys == OrEmpty(prev).Keys - {day}
    ensures forall k :: k in next ==> next[k] == OrEmpty(prev)[k]
  {
    OrEmpty(prev) - {day}
  }

  /** Deleting an absent day leaves the book as it was. */
  lemma DeleteAbsent<E>(b: Book<E>, day: string)
    requires day !in b
    ensures DeleteDay(Some(b), day) == b
  {
  }

  /** Deleting after an update removes every trace of the update. */
  lemma DeleteUndoesUpdate<E>(b: Book<E>, day: string, fn: E -> E, empty: E)
    requires day !in b
    ensures DeleteDay(Some(UpdateDay(Some(b), day, fn, empty)), day) == b
  {
  }

  /** What JSON.parse gave for an imported file: an error, a falsy value, or a book. */
  datatype Parsed<E> = ParseError | Falsy | ParsedBook(book: Book<E>)

  /** doImport: a parse failure keeps the book; otherwise it is replaced wholesale by data || {}. */
  function Import<E>(prev: Option<Book<E>>, data: Parsed<E>): (next: Option<Book<E>>)
    ensures data.ParseError? ==> next == prev
    ensures data.Falsy? ==> next == Some(map[])
    ensures data.ParsedBook? ==> next == Some(data.book)
  {
    match data
    case ParseError => prev
    case Falsy => Some(map[])
    case ParsedBook(b) => Some(b)
  }

  /** A successful import does not depend on what the book held before. */
  lemma ImportReplaces<E>(p1: Option<Book<E>>, p2: Option<Book<E>>, data: Parsed<E>)
    requires !data.ParseError?
    ensures Import(p1, data) == Import(p2, data)
  {
  }
}
