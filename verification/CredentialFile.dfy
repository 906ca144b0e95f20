/** Durable replacement of the credential file: each writer fills a private sibling and renames it over
    the file. Any number of writers, in any number of processes, interleave, fail and crash. */
module CredentialFile {
  import opened Options

  type WriterId = nat

  datatype Stage = Writing | Written | Synced | Protected | Closed | Renamed | Failed

  datatype Writer = Writer(temporary: string, text: string, stage: Stage)

  /** `used`: sibling names ever drawn; a fresh random name is in none of them. */
  datatype Directory = Directory(file: Option<string>, siblings: map<string, string>, used: set<string>,
                                 writers: map<WriterId, Writer>)

  datatype Event =
    | Create(writer: WriterId, temporary: string, text: string)
    | WriteSome(writer: WriterId, count: nat)
    | WriteRest(writer: WriterId)
    | Sync(writer: WriterId)
    | Protect(writer: WriterId)
    | CloseSibling(writer: WriterId)
    | Rename(writer: WriterId)
    | Finish(writer: WriterId)
    | Fail(writer: WriterId)
    | RemoveSibling(writer: WriterId)
    | Crash(writer: WriterId)

  predicate In(d: Directory, w: WriterId, stage: Stage) {
    w in d.writers && d.writers[w].stage == stage
  }

  predicate Enabled(d: Directory, e: Event) {
    match e
    case Create(w, temporary, _) => w !in d.writers && temporary !in d.used
    case WriteSome(w, count) => In(d, w, Writing) && count <= |d.writers[w].text|
    case WriteRest(w) => In(d, w, Writing)
    case Sync(w) => In(d, w, Written)
    case Protect(w) => In(d, w, Synced)
    case CloseSibling(w) => In(d, w, Protected)
    case Rename(w) => In(d, w, Closed) && d.writers[w].temporary in d.siblings
    case Finish(w) => In(d, w, Renamed)
    case Fail(w) => w in d.writers
    case RemoveSibling(w) => In(d, w, Failed)
    case Crash(w) => w in d.writers
  }

  function AtStage(d: Directory, w: WriterId, stage: Stage): Directory
    requires w in d.writers
  {
    d.(writers := d.writers[w := d.writers[w].(stage := stage)])
  }

  function Apply(d: Directory, e: Event): Directory
    requires Enabled(d, e)
  {
    match e
    case Create(w, temporary, text) =>
      d.(siblings := d.siblings[temporary := ""], used := d.used + {temporary},
         writers := d.writers[w := Writer(temporary, text, Writing)])
    case WriteSome(w, count) =>
      d.(siblings := d.siblings[d.writers[w].temporary := d.writers[w].text[..count]])
    case WriteRest(w) =>
      AtStage(d, w, Written).(siblings := d.siblings[d.writers[w].temporary := d.writers[w].text])
    case Sync(w) => AtStage(d, w, Synced)
    case Protect(w) => AtStage(d, w, Protected)
    case CloseSibling(w) => AtStage(d, w, Closed)
    case Rename(w) =>
      var temporary := d.writers[w].temporary;
      AtStage(d, w, Renamed).(file := Some(d.siblings[temporary]), siblings := d.siblings - {temporary})
    case Finish(w) => d.(writers := d.writers - {w})
    case Fail(w) => AtStage(d, w, Failed)
    case RemoveSibling(w) =>
      d.(siblings := d.siblings - {d.writers[w].temporary}, writers := d.writers - {w})
    case Crash(w) => d.(writers := d.writers - {w})
  }

  /** The directory after a sequence of events, when each is enabled where it happens. */
  function Run(d: Directory, es: seq<Event>): Option<Directory>
    decreases |es|
  {
    if es == [] then Some(d)
    else
      var before := Run(d, es[..|es| - 1]);
      if before.Some? && Enabled(before.value, es[|es| - 1]) then Some(Apply(before.value, es[|es| - 1])) else None
  }

  /** What the file should hold: the whole text given to the writer that renamed last, else what it held. */
  function LastWhole(d: Directory, es: seq<Event>): Option<string>
    requires Run(d, es).Some?
    decreases |es|
  {
    if es == [] then d.file
    else
      var before, last := Run(d, es[..|es| - 1]).value, es[|es| - 1];
      if last.Rename? then Some(before.writers[last.writer].text) else LastWhole(d, es[..|es| - 1])
  }

  /** A writer's sibling exists from its creation to the rename, and is whole once written. */
  predicate SiblingMatches(d: Directory, w: Writer) {
    match w.stage
    case Writing => w.temporary in d.siblings
    case Renamed => w.temporary !in d.siblings
    case Failed => true
    case _ => w.temporary in d.siblings && d.siblings[w.temporary] == w.text
  }

  /** Names are never drawn twice, so no two writers share one. */
  ghost predicate NamesAreFresh(d: Directory) {
    && d.siblings.Keys <= d.used
    && (forall w :: w in d.writers ==> d.writers[w].temporary in d.used)
    && (forall v, w :: v in d.writers && w in d.writers && d.writers[v].temporary == d.writers[w].temporary ==> v == w)
  }

  ghost predicate Inv(d: Directory) {
    NamesAreFresh(d) && forall w :: w in d.writers ==> SiblingMatches(d, d.writers[w])
  }

  lemma StepKeepsNames(d: Directory, e: Event)
    requires NamesAreFresh(d) && Enabled(d, e)
    ensures NamesAreFresh(Apply(d, e))
  {
  }

  lemma StepKeepsSibling(d: Directory, e: Event, w: WriterId)
    requires Inv(d) && Enabled(d, e) && w in Apply(d, e).writers
    ensures SiblingMatches(Apply(d, e), Apply(d, e).writers[w])
  {
    if w in d.writers { assert SiblingMatches(d, d.writers[w]); }
  }

  lemma StepKeepsInv(d: Directory, e: Event)
    requires Inv(d) && Enabled(d, e)
    ensures Inv(Apply(d, e))
  {
    StepKeepsNames(d, e);
    forall w | w in Apply(d, e).writers ensures SiblingMatches(Apply(d, e), Apply(d, e).writers[w]) {
      StepKeepsSibling(d, e, w);
    }
  }

  lemma {:induction false} RunKeepsInv(d: Directory, es: seq<Event>)
    requires Inv(d) && Run(d, es).Some?
    ensures Inv(Run(d, es).value)
    decreases |es|
  {
    if es != [] {
      RunKeepsInv(d, es[..|es| - 1]);
      StepKeepsInv(Run(d, es[..|es| - 1]).value, es[|es| - 1]);
    }
  }

  /** At every instant of every run the file is a complete snapshot: the old one, or exactly the text
      of the writer that renamed last -- whatever was half written, failed, or crashed meanwhile. */
  lemma {:induction false} FileIsAlwaysWhole(d: Directory, es: seq<Event>)
    requires d.siblings == map[] && d.writers == map[] && Run(d, es).Some?
    ensures Run(d, es).value.file == LastWhole(d, es)
    decreases |es|
  {
    if es != [] {
      FileIsAlwaysWhole(d, es[..|es| - 1]);
      RunKeepsInv(d, es[..|es| - 1]);
    }
  }

  lemma OneMore(d: Directory, es: seq<Event>, e: Event)
    requires Run(d, es).Some? && Enabled(Run(d, es).value, e)
    ensures Run(d, es + [e]) == Some(Apply(Run(d, es).value, e))
  {
    assert (es + [e])[..|es|] == es;
  }

  /** The first half of an undisturbed write: up to the closed sibling. */
  lemma LoneWriterCloses(d: Directory, w: WriterId, temporary: string, text: string) returns (es: seq<Event>)
    requires w !in d.writers && temporary !in d.used
    ensures Run(d, es).Some?
    ensures Run(d, es).value
            == Directory(d.file, d.siblings[temporary := text], d.used + {temporary},
                         d.writers[w := Writer(temporary, text, Closed)])
  {
    es := [];
    OneMore(d, es, Create(w, temporary, text));
    es := es + [Create(w, temporary, text)];
    OneMore(d, es, WriteRest(w));
    es := es + [WriteRest(w)];
    OneMore(d, es, Sync(w));
    es := es + [Sync(w)];
    OneMore(d, es, Protect(w));
    es := es + [Protect(w)];
    OneMore(d, es, CloseSibling(w));
    es := es + [CloseSibling(w)];
    assert d.siblings[temporary := ""][temporary := text] == d.siblings[temporary := text];
    assert Run(d, es).value.writers == d.writers[w := Writer(temporary, text, Closed)];
  }

  /** A writer that is left alone replaces the file by its text and leaves no sibling. */
  lemma LoneWriterReplaces(d: Directory, w: WriterId, temporary: string, text: string) returns (es: seq<Event>)
    requires w !in d.writers && temporary !in d.used && d.siblings.Keys <= d.used
    ensures Run(d, es).Some? && Run(d, es).value.file == Some(text) && Run(d, es).value.siblings == d.siblings
    ensures Run(d, es).value.writers == d.writers
  {
    es := LoneWriterCloses(d, w, temporary, text);
    OneMore(d, es, Rename(w));
    es := es + [Rename(w)];
    OneMore(d, es, Finish(w));
    es := es + [Finish(w)];
    assert temporary !in d.siblings;
  }

  /** A writer that fails, wherever it stands, removes its sibling and leaves the file as it was. */
  lemma FailingWriterCleansUp(d: Directory, w: WriterId)
    requires w in d.writers
    ensures var after := Run(d, [Fail(w), RemoveSibling(w)]);
            && after.Some? && after.value.file == d.file && after.value.writers == d.writers - {w}
            && after.value.siblings == d.siblings - {d.writers[w].temporary}
  {
    OneMore(d, [], Fail(w));
    OneMore(d, [] + [Fail(w)], RemoveSibling(w));
    assert [] + [Fail(w)] + [RemoveSibling(w)] == [Fail(w), RemoveSibling(w)];
  }

  predicate OwnedBy(d: Directory, name: string, w: WriterId) {
    w in d.writers && d.writers[w].temporary == name
  }

  ghost predicate SiblingsAreOwned(d: Directory) {
    forall name :: name in d.siblings ==> exists w :: OwnedBy(d, name, w)
  }

  lemma StepKeepsSiblingsOwned(d: Directory, e: Event)
    requires Inv(d) && SiblingsAreOwned(d) && Enabled(d, e) && !e.Crash?
    ensures SiblingsAreOwned(Apply(d, e))
  {
    var after := Apply(d, e);
    forall name | name in after.siblings ensures exists w :: OwnedBy(after, name, w) {
      if name in d.siblings {
        var w :| OwnedBy(d, name, w);
        assert OwnedBy(after, name, w);
      } else {
        assert OwnedBy(after, name, e.writer);
      }
    }
  }

  /** Only a killed writer leaves its sibling behind: without crashes every sibling is some live writer's. */
  lemma {:induction false} OnlyCrashesLeaveSiblings(d: Directory, es: seq<Event>)
    requires d.siblings == map[] && d.writers == map[] && Run(d, es).Some?
    requires forall e :: e in es ==> !e.Crash?
    ensures SiblingsAreOwned(Run(d, es).value)
    decreases |es|
  {
    if es != [] {
      OnlyCrashesLeaveSiblings(d, es[..|es| - 1]);
      RunKeepsInv(d, es[..|es| - 1]);
      StepKeepsSiblingsOwned(Run(d, es[..|es| - 1]).value, es[|es| - 1]);
    }
  }
}
