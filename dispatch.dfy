/**
 * `apply_effect` and `apply_transition` (vid_edit.py:181-201): use the
 * named effect or transition only when the catalog has an entry for it and
 * the implementing module has an attribute of that name; otherwise fall
 * back (the clip unchanged, or the two clips one after the other).  On the
 * applied path the entry's `description` is read, and for a transition its
 * `output_file`, and a missing key raises `KeyError`.
 *
 * Which names the implementing modules provide (`hasattr`) is a parameter,
 * `implemented`.  Video frames are not modelled: footage is the cut it
 * came from and the effects laid on it, and an assembled clip is the list
 * of files read, in order.
 */
module Dispatch {
  import opened Wrappers
  import opened Catalogs

  /** A clip in memory: a cut `video.subclip(start, end)` of the input, or an effect applied to a clip. */
  datatype Footage = Cut(start: real, end: real) | Effected(effect: string, base: Footage)

  /** The cut a piece of footage was made from. */
  function Source(f: Footage): Footage {
    match f
    case Cut(_, _) => f
    case Effected(_, base) => Source(base)
  }

  /** A file read back, `VideoFileClip(path)`. */
  datatype Piece = Read(path: string)

  /** An assembled clip: the files it plays, in order. */
  type Clip = seq<Piece>

  /** The gate of both operations: the catalog has the name and the module implements it. */
  predicate Usable(name: string, c: Catalog, implemented: set<string>) {
    name in c.entries && name in implemented
  }

  /**
   * `apply_effect(clip, name, effects)`: the clip itself unless the effect
   * is usable; `KeyError` when a usable effect's entry has no description;
   * otherwise the effect laid on the clip.
   */
  function ApplyEffect(clip: Footage, name: string, effects: Catalog, implemented: set<string>): (r: Result<Footage, Error>)
    ensures r == Ok(clip) <==> !Usable(name, effects, implemented)
    ensures r.Err? <==> Usable(name, effects, implemented) && effects.entries[name].description.None?
    ensures r.Err? ==> r.error == KeyError("description")
    ensures r.Ok? && Usable(name, effects, implemented) ==> r.value == Effected(name, clip)
  {
    if Usable(name, effects, implemented) then
      match effects.entries[name].description
      case None => Err(KeyError("description"))
      case Some(_) =>
        assert Effected(name, clip) != clip by { DifferentFromPart(name, clip); }
        Ok(Effected(name, clip))
    else Ok(clip)
  }

  /** Applying an effect never changes which cut of the input a clip shows. */
  lemma EffectKeepsCut(clip: Footage, name: string, effects: Catalog, implemented: set<string>)
    requires ApplyEffect(clip, name, effects, implemented).Ok?
    ensures Source(ApplyEffect(clip, name, effects, implemented).value) == Source(clip)
  {
  }

  lemma DifferentFromPart(name: string, clip: Footage)
    ensures Effected(name, clip) != clip
  {
    assert clip < Effected(name, clip);
  }

  /**
   * `apply_transition(prev, cur, name, transitions)`: the two segment files
   * one after the other unless the transition is usable; `KeyError` when a
   * usable transition's entry lacks its description or its output file;
   * otherwise the transition's output file.
   */
  function ApplyTransition(prev: string, cur: string, name: string, transitions: Catalog, implemented: set<string>): (r: Result<Clip, Error>)
    ensures !Usable(name, transitions, implemented) <==> r == Ok([Read(prev), Read(cur)])
    ensures r.Err? <==> Usable(name, transitions, implemented) && !Complete(transitions.entries[name])
    ensures r.Err? ==> r.error == KeyError(if transitions.entries[name].description.None? then "description" else "output_file")
    ensures r.Ok? && Usable(name, transitions, implemented) ==> r.value == [Read(transitions.entries[name].outputFile.value)]
  {
    if Usable(name, transitions, implemented) then
      var entry := transitions.entries[name];
      if entry.description.None? then Err(KeyError("description"))
      else if entry.outputFile.None? then Err(KeyError("output_file"))
      else Ok([Read(entry.outputFile.value)])
    else Ok([Read(prev), Read(cur)])
  }

  /** An entry that has both keys a transition reads. */
  predicate Complete(e: Entry) {
    e.description.Some? && e.outputFile.Some?
  }
}
