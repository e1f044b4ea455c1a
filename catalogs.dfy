/**
 * `load_transitions` and `load_effects`: a JSON document with a top-level
 * array of entries becomes a name -> entry dictionary.  A later entry with
 * the same name replaces the earlier one; any failure (unreadable file,
 * missing section, an entry without a name) gives the empty dictionary.
 */
module Catalogs {
  import opened Wrappers

  /** One catalog entry: the fields of it that the pipeline reads. */
  datatype Entry = Entry(name: Option<string>, description: Option<string>, outputFile: Option<string>)

  /**
   * The decoded configuration file: its top-level sections, each either an
   * array of entries (`Some`) or a value that is not an array (`None`).
   */
  datatype Document = Document(sections: map<string, Option<seq<Entry>>>)

  /**
   * A Python dict from names to entries: `names` is the key order
   * (`list(d.keys())`, insertion order), `entries` the mapping.
   */
  datatype Catalog = Catalog(names: seq<string>, entries: map<string, Entry>)

  /** The dict invariant: each key once in the key order, and the key order lists exactly the keys. */
  ghost predicate WellFormed(c: Catalog) {
    && (forall i, j :: 0 <= i < j < |c.names| ==> c.names[i] != c.names[j])
    && (forall k :: k in c.entries <==> k in c.names)
  }

  /** `not d`. */
  predicate IsEmpty(c: Catalog) {
    |c.names| == 0
  }

  const Empty := Catalog([], map[])

  /** `d[name] = entry`: a new key goes to the end of the key order, an existing key keeps its place. */
  function Insert(c: Catalog, name: string, e: Entry): (r: Catalog)
    requires WellFormed(c)
    ensures WellFormed(r)
    ensures r.entries == c.entries[name := e]
    ensures name in c.entries ==> r.names == c.names
    ensures name !in c.entries ==> r.names == c.names + [name]
  {
    if name in c.entries then Catalog(c.names, c.entries[name := e])
    else Catalog(c.names + [name], c.entries[name := e])
  }

  /** The entry at `i` is the last one carrying its name. */
  ghost predicate Latest(es: seq<Entry>, i: int)
    requires 0 <= i < |es|
  {
    forall j :: i < j < |es| ==> es[j].name != es[i].name
  }

  /**
   * `{e['name']: e for e in entries}`: `None` when some entry has no name
   * (the `KeyError` the loader catches); otherwise the keys are exactly the
   * names that occur and each maps to the last entry carrying it.
   */
  function FromEntries(es: seq<Entry>): (r: Option<Catalog>)
    ensures r.Some? <==> forall i :: 0 <= i < |es| ==> es[i].name.Some?
    ensures r.Some? ==> WellFormed(r.value)
    ensures r.Some? ==> r.value.entries.Keys == NamesOf(es)
    ensures r.Some? ==> forall i :: 0 <= i < |es| && Latest(es, i) ==> r.value.entries[es[i].name.value] == es[i]
  {
    if es == [] then Some(Empty)
    else
      var front, e := es[..|es| - 1], es[|es| - 1];
      assert es == front + [e];
      var init := FromEntries(front);
      if init.None? || e.name.None? then
        assert init.None? ==> exists i :: 0 <= i < |front| && front[i].name.None?;
        None
      else
        var r := Insert(init.value, e.name.value, e);
        LatestStep(front, e, init.value, r);
        Some(r)
  }

  /** The step of `FromEntries`: appending one named entry keeps "each name maps to its last entry". */
  lemma LatestStep(front: seq<Entry>, e: Entry, init: Catalog, r: Catalog)
    requires e.name.Some? && forall i :: 0 <= i < |front| ==> front[i].name.Some?
    requires init.entries.Keys == NamesOf(front)
    requires forall i :: 0 <= i < |front| && Latest(front, i) ==> init.entries[front[i].name.value] == front[i]
    requires r.entries == init.entries[e.name.value := e]
    ensures r.entries.Keys == NamesOf(front + [e])
    ensures forall i :: 0 <= i < |front + [e]| && Latest(front + [e], i) ==> r.entries[(front + [e])[i].name.value] == (front + [e])[i]
  {
    var es := front + [e];
    assert forall i :: 0 <= i < |front| ==> es[i] == front[i];
    assert NamesOf(es) == NamesOf(front) + {e.name.value} by {
      assert es[|front|] == e;
    }
    forall i | 0 <= i < |es| && Latest(es, i)
      ensures r.entries[es[i].name.value] == es[i]
    {
      if i < |front| {
        assert es[|front|].name != es[i].name;
        assert Latest(front, i) by {
          forall j | i < j < |front|
            ensures front[j].name != front[i].name
          {
            assert es[j].name != es[i].name;
          }
        }
      }
    }
  }

  /** The names the entries carry. */
  ghost function NamesOf(es: seq<Entry>): set<string> {
    set i | 0 <= i < |es| && es[i].name.Some? :: es[i].name.value
  }

  /** The shared shape of both loaders: read section `kind`, build the dict, or fall back to `{}`. */
  function Load(file: Option<Document>, kind: string): (c: Catalog)
    ensures WellFormed(c)
    ensures file.None? ==> c == Empty
    ensures file.Some? && (kind !in file.value.sections || file.value.sections[kind].None?) ==> c == Empty
    ensures file.Some? && kind in file.value.sections && file.value.sections[kind].Some? ==>
      var built := FromEntries(file.value.sections[kind].value);
      built.Some? ==> c == built.value
  {
    match file
    case None => Empty
    case Some(doc) =>
      if kind !in doc.sections || doc.sections[kind].None? then Empty
      else
        match FromEntries(doc.sections[kind].value)
        case None => Empty
        case Some(c) => c
  }

  /** `load_transitions(TRANSITIONS_FILE)`. */
  function LoadTransitions(file: Option<Document>): (c: Catalog)
    ensures WellFormed(c)
    ensures file.None? || "transitions" !in file.value.sections ==> c == Empty
    ensures file.Some? && "transitions" in file.value.sections && file.value.sections["transitions"].Some? ==>
      var built := FromEntries(file.value.sections["transitions"].value);
      built.Some? ==> c == built.value
  {
    Load(file, "transitions")
  }

  /** `load_effects(EFFECTS_FILE)`. */
  function LoadEffects(file: Option<Document>): (c: Catalog)
    ensures WellFormed(c)
    ensures file.None? || "effects" !in file.value.sections ==> c == Empty
    ensures file.Some? && "effects" in file.value.sections && file.value.sections["effects"].Some? ==>
      var built := FromEntries(file.value.sections["effects"].value);
      built.Some? ==> c == built.value
  {
    Load(file, "effects")
  }

  /** A later entry with the same name wins, whatever came before it. */
  lemma LastWriteWins(es: seq<Entry>, name: string, first: Entry, second: Entry)
    requires first.name == Some(name) && second.name == Some(name)
    requires forall i :: 0 <= i < |es| ==> es[i].name.Some?
    ensures FromEntries(es + [first, second]).Some?
    ensures FromEntries(es + [first, second]).value.entries[name] == second
  {
    var all := es + [first, second];
    forall i | 0 <= i < |all|
      ensures all[i].name.Some?
    {
      if i < |es| {
        assert all[i] == es[i];
      }
    }
    var last := |all| - 1;
    assert all[last] == second;
    assert Latest(all, last);
    var built := FromEntries(all);
    assert built.value.entries[all[last].name.value] == all[last];
  }

  /** One entry without a name discards every other entry: the loader yields `{}`. */
  lemma NamelessEntryEmptiesCatalog(file: Document, kind: string, i: nat)
    requires kind in file.sections && file.sections[kind].Some?
    requires i < |file.sections[kind].value| && file.sections[kind].value[i].name.None?
    ensures Load(Some(file), kind) == Empty
  {
  }
}
