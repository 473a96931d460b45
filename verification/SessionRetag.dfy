/** Retagging Codex sessions from one provider to another (app/codex_sessions_retag.py).

    A session file is its parsed lines; lines that are blank or not JSON keep their text.
    A state database is the provider column of its threads table. */
module SessionRetag {
  import opened Common
  import opened Json

  datatype Line = Raw(text: string) | Parsed(value: Json)
  type File = seq<Line>

  datatype StateDb = StateDb(hasTable: bool, hasColumn: bool, providers: seq<Option<string>>)

  // ----- Reading tags -----

  const TAG := "model_provider"

  function AsText(v: Json): Option<string> { if v.Str? then Some(v.s) else None }

  function PayloadTag(fields: Fields): Option<string> {
    if Get(fields, "type") == Str("session_meta") && Get(fields, "payload").Obj?
    then AsText(Get(Get(fields, "payload").fields, TAG))
    else None
  }

  /** `_jsonl_record_provider`: a top-level tag hides the payload's. */
  function RecordProvider(fields: Fields): Option<string> {
    if Get(fields, TAG).Str? then Some(Get(fields, TAG).s) else PayloadTag(fields)
  }

  function LineProvider(line: Line): Option<string> {
    if line.Parsed? && line.value.Obj? then RecordProvider(line.value.fields) else None
  }

  function Rows(db: StateDb): seq<Option<string>> { if db.hasTable && db.hasColumn then db.providers else [] }

  // ----- Rewriting tags -----

  /** `_retag_jsonl_record_provider`: None if the record is left alone. */
  function RetagRecord(fields: Fields, src: string, dst: string): Option<Fields> {
    if Get(fields, TAG) == Str(src) then Some(fields[TAG := Str(dst)])
    else if PayloadTag(fields) == Some(src) then
      Some(fields["payload" := Obj(fields["payload"].fields[TAG := Str(dst)])])
    else None
  }

  function RetagLine(line: Line, src: string, dst: string): Line {
    if line.Parsed? && line.value.Obj? && RetagRecord(line.value.fields, src, dst).Some?
    then Parsed(Obj(RetagRecord(line.value.fields, src, dst).value))
    else line
  }

  function RetagLines(f: File, src: string, dst: string): (r: File)
    ensures |r| == |f| && forall i :: 0 <= i < |f| ==> r[i] == RetagLine(f[i], src, dst)
  {
    seq(|f|, i requires 0 <= i < |f| => RetagLine(f[i], src, dst))
  }

  predicate Mentions(f: File, p: string) { exists i :: 0 <= i < |f| && LineProvider(f[i]) == Some(p) }

  function RetagFile(f: File, src: string, dst: string): File {
    if Mentions(f, src) then RetagLines(f, src, dst) else f
  }

  function RetagRows(rows: seq<Option<string>>, src: string, dst: string): (r: seq<Option<string>>)
    ensures |r| == |rows|
    ensures forall i :: 0 <= i < |rows| ==> r[i] == if rows[i] == Some(src) then Some(dst) else rows[i]
  {
    seq(|rows|, i requires 0 <= i < |rows| => if rows[i] == Some(src) then Some(dst) else rows[i])
  }

  function RetagDb(db: StateDb, src: string, dst: string): StateDb {
    if Some(src) in Rows(db) then db.(providers := RetagRows(db.providers, src, dst)) else db
  }

  // ----- Counting -----

  function Tally(tags: seq<Option<string>>, p: string): nat {
    if tags == [] then 0
    else Tally(tags[..|tags| - 1], p) + if tags[|tags| - 1] == Some(p) then 1 else 0
  }

  function Tags(f: File): (tags: seq<Option<string>>)
    ensures |tags| == |f| && forall i :: 0 <= i < |f| ==> tags[i] == LineProvider(f[i])
  {
    seq(|f|, i requires 0 <= i < |f| => LineProvider(f[i]))
  }

  function CountFiles(files: seq<File>, p: string): nat {
    if files == [] then 0 else CountFiles(files[..|files| - 1], p) + Tally(Tags(files[|files| - 1]), p)
  }

  function CountDbs(dbs: seq<StateDb>, p: string): nat {
    if dbs == [] then 0 else CountDbs(dbs[..|dbs| - 1], p) + Tally(Rows(dbs[|dbs| - 1]), p)
  }

  // ----- What a retag does to the counts -----

  /** The tag a reader sees after rewriting: the source becomes the target, and no other
      tag changes, although the rewriter also rewrites payload tags the reader never sees. */
  lemma {:induction false} RetagLineTag(line: Line, src: string, dst: string)
    requires src != dst
    ensures LineProvider(RetagLine(line, src, dst)) ==
            if LineProvider(line) == Some(src) then Some(dst) else LineProvider(line)
  {
  }

  predicate Renamed(before: seq<Option<string>>, after: seq<Option<string>>, src: string, dst: string) {
    && |after| == |before|
    && forall i :: 0 <= i < |before| ==> after[i] == if before[i] == Some(src) then Some(dst) else before[i]
  }

  lemma {:induction false} RenamedTally(before: seq<Option<string>>, after: seq<Option<string>>, src: string, dst: string, p: string)
    requires src != dst && Renamed(before, after, src, dst)
    ensures Tally(after, p) ==
            if p == src then 0
            else if p == dst then Tally(before, dst) + Tally(before, src)
            else Tally(before, p)
  {
    if before != [] {
      RenamedTally(before[..|before| - 1], after[..|after| - 1], src, dst, p);
    }
  }

  lemma {:induction false} TallyZero(tags: seq<Option<string>>, p: string)
    ensures Tally(tags, p) == 0 <==> Some(p) !in tags
  {
    if tags != [] {
      TallyZero(tags[..|tags| - 1], p);
      assert tags == tags[..|tags| - 1] + [tags[|tags| - 1]];
    }
  }

  lemma {:induction false} RetagFileRenames(f: File, src: string, dst: string)
    requires src != dst
    ensures Renamed(Tags(f), Tags(RetagFile(f, src, dst)), src, dst)
  {
    forall i | 0 <= i < |f| ensures LineProvider(RetagLine(f[i], src, dst)) ==
        if LineProvider(f[i]) == Some(src) then Some(dst) else LineProvider(f[i]) {
      RetagLineTag(f[i], src, dst);
    }
  }

  lemma {:induction false} RetagDbRenames(db: StateDb, src: string, dst: string)
    ensures Renamed(Rows(db), Rows(RetagDb(db, src, dst)), src, dst)
  {
  }

  function RetagFiles(files: seq<File>, src: string, dst: string): (r: seq<File>)
    ensures |r| == |files| && forall i :: 0 <= i < |files| ==> r[i] == RetagFile(files[i], src, dst)
  {
    seq(|files|, i requires 0 <= i < |files| => RetagFile(files[i], src, dst))
  }

  function RetagDbs(dbs: seq<StateDb>, src: string, dst: string): (r: seq<StateDb>)
    ensures |r| == |dbs| && forall i :: 0 <= i < |dbs| ==> r[i] == RetagDb(dbs[i], src, dst)
  {
    seq(|dbs|, i requires 0 <= i < |dbs| => RetagDb(dbs[i], src, dst))
  }

  lemma {:induction false} FilesMove(files: seq<File>, src: string, dst: string, p: string)
    requires src != dst
    ensures CountFiles(RetagFiles(files, src, dst), p) ==
            if p == src then 0
            else if p == dst then CountFiles(files, dst) + CountFiles(files, src)
            else CountFiles(files, p)
  {
    if files != [] {
      var init, last := files[..|files| - 1], files[|files| - 1];
      FilesMove(init, src, dst, p);
      assert RetagFiles(files, src, dst)[..|files| - 1] == RetagFiles(init, src, dst);
      RetagFileRenames(last, src, dst);
      RenamedTally(Tags(last), Tags(RetagFile(last, src, dst)), src, dst, p);
    }
  }

  lemma {:induction false} DbsMove(dbs: seq<StateDb>, src: string, dst: string, p: string)
    requires src != dst
    ensures CountDbs(RetagDbs(dbs, src, dst), p) ==
            if p == src then 0
            else if p == dst then CountDbs(dbs, dst) + CountDbs(dbs, src)
            else CountDbs(dbs, p)
  {
    if dbs != [] {
      var init, last := dbs[..|dbs| - 1], dbs[|dbs| - 1];
      DbsMove(init, src, dst, p);
      assert RetagDbs(dbs, src, dst)[..|dbs| - 1] == RetagDbs(init, src, dst);
      RetagDbRenames(last, src, dst);
      RenamedTally(Rows(last), Rows(RetagDb(last, src, dst)), src, dst, p);
    }
  }

  function Count(files: seq<File>, dbs: seq<StateDb>, p: string): nat { CountFiles(files, p) + CountDbs(dbs, p) }

  /** A retag moves the source's count to the target and keeps every other provider's. */
  lemma {:induction false} CountsMove(files: seq<File>, dbs: seq<StateDb>, src: string, dst: string)
    requires src != dst
    ensures var newFiles, newDbs := RetagFiles(files, src, dst), RetagDbs(dbs, src, dst);
            && Count(newFiles, newDbs, src) == 0
            && Count(newFiles, newDbs, dst) == Count(files, dbs, dst) + Count(files, dbs, src)
            && forall p :: p != src && p != dst ==> Count(newFiles, newDbs, p) == Count(files, dbs, p)
  {
    var newFiles, newDbs := RetagFiles(files, src, dst), RetagDbs(dbs, src, dst);
    FilesMove(files, src, dst, src);
    DbsMove(dbs, src, dst, src);
    FilesMove(files, src, dst, dst);
    DbsMove(dbs, src, dst, dst);
    forall p | p != src && p != dst ensures Count(newFiles, newDbs, p) == Count(files, dbs, p) {
      FilesMove(files, src, dst, p);
      DbsMove(dbs, src, dst, p);
    }
  }

  // ----- Which lines change -----

  /** The rewriter's own match: it looks at the payload even under another top-level tag. */
  predicate Shadowed(line: Line, src: string) {
    && line.Parsed? && line.value.Obj?
    && Get(line.value.fields, TAG).Str? && Get(line.value.fields, TAG) != Str(src)
    && PayloadTag(line.value.fields) == Some(src)
  }

  lemma {:induction false} LineChanges(line: Line, src: string, dst: string)
    requires src != dst
    ensures RetagLine(line, src, dst) != line <==> LineProvider(line) == Some(src) || Shadowed(line, src)
  {
    if line.Parsed? && line.value.Obj? {
      var fields := line.value.fields;
      assert Get(fields[TAG := Str(dst)], TAG) == Str(dst);
      if PayloadTag(fields) == Some(src) {
        var inner := fields["payload"].fields;
        assert Get(inner[TAG := Str(dst)], TAG) != Get(inner, TAG);
        assert Get(fields["payload" := Obj(inner[TAG := Str(dst)])], "payload") != fields["payload"];
      }
    }
  }

  /** "Lines of other providers stay as they are" holds exactly when no file to be rewritten
      has a record whose payload carries the source tag under a different top-level tag. */
  lemma {:induction false} UnmatchedLinesKept(files: seq<File>, src: string, dst: string)
    requires src != dst
    ensures (forall i, j :: 0 <= i < |files| && 0 <= j < |files[i]| && LineProvider(files[i][j]) != Some(src) ==>
               RetagFile(files[i], src, dst)[j] == files[i][j])
            <==>
            (forall i, j :: 0 <= i < |files| && 0 <= j < |files[i]| && Mentions(files[i], src) ==>
               !Shadowed(files[i][j], src))
  {
    forall i, j | 0 <= i < |files| && 0 <= j < |files[i]| && LineProvider(files[i][j]) != Some(src)
      ensures RetagFile(files[i], src, dst)[j] == files[i][j] <==> !(Mentions(files[i], src) && Shadowed(files[i][j], src))
    {
      LineChanges(files[i][j], src, dst);
    }
    assert forall i, j :: 0 <= i < |files| && 0 <= j < |files[i]| && Shadowed(files[i][j], src) ==>
             LineProvider(files[i][j]) != Some(src);
  }

  /** Such a line: the reader counts it for "openai" before and after, yet it is rewritten. */
  lemma {:induction false} UnmatchedLineCanChange()
    ensures var shadowed := Parsed(Obj(map[TAG := Str("openai"), "type" := Str("session_meta"),
                                           "payload" := Obj(map[TAG := Str("codex-lb")])]));
            var file := [Parsed(Obj(map[TAG := Str("codex-lb")])), shadowed];
            && LineProvider(shadowed) == Some("openai")
            && RetagFile(file, "codex-lb", "openai")[1] != shadowed
            && LineProvider(RetagFile(file, "codex-lb", "openai")[1]) == Some("openai")
  {
    var shadowed := Parsed(Obj(map[TAG := Str("openai"), "type" := Str("session_meta"),
                                   "payload" := Obj(map[TAG := Str("codex-lb")])]));
    var first := Parsed(Obj(map[TAG := Str("codex-lb")]));
    var file := [first, shadowed];
    assert LineProvider(file[0]) == Some("codex-lb");
    LineChanges(shadowed, "codex-lb", "openai");
    RetagLineTag(shadowed, "codex-lb", "openai");
  }

  /** A rewritten record differs in the tag alone, at the top level or in the payload. */
  lemma {:induction false} OnlyTheTagChanges(fields: Fields, src: string, dst: string)
    requires RetagRecord(fields, src, dst).Some?
    ensures var out := RetagRecord(fields, src, dst).value;
            && out.Keys == fields.Keys
            && (forall k :: k in fields && k != TAG && k != "payload" ==> out[k] == fields[k])
            && (Get(out, "payload") != Get(fields, "payload") ==>
                  && Get(out, TAG) == Get(fields, TAG)
                  && Get(out, "payload").Obj? && Get(fields, "payload").Obj?
                  && out["payload"].fields - {TAG} == fields["payload"].fields - {TAG})
  {
  }

  // ----- The command -----

  const SUPPORTED := {"openai", "codex-lb"}

  datatype Report = Report(
    filesMatched: nat, filesUpdated: nat, rowsMatched: nat, rowsUpdated: nat,
    before: map<string, nat>, after: map<string, nat>)

  function CountOf(counts: map<string, nat>, p: string): nat { if p in counts then counts[p] else 0 }

  function MatchedFiles(files: seq<File>, p: string): nat {
    if files == [] then 0
    else MatchedFiles(files[..|files| - 1], p) + if Mentions(files[|files| - 1], p) then 1 else 0
  }

  method AddTags(counts: map<string, nat>, tags: seq<Option<string>>) returns (more: map<string, nat>)
    ensures forall p :: CountOf(more, p) == CountOf(counts, p) + Tally(tags, p)
  {
    more := counts;
    for i := 0 to |tags|
      invariant forall p :: CountOf(more, p) == CountOf(counts, p) + Tally(tags[..i], p)
    {
      assert tags[..i + 1][..i] == tags[..i];
      if tags[i].Some? {
        more := more[tags[i].value := CountOf(more, tags[i].value) + 1];
      }
    }
    assert tags[..|tags|] == tags;
  }

  /** `_retag_jsonl_file` */
  method RetagJsonlFile(f: File, src: string, dst: string) returns (out: File, changed: bool)
    ensures out == RetagLines(f, src, dst)
    ensures changed <==> exists i :: 0 <= i < |f| && (LineProvider(f[i]) == Some(src) || Shadowed(f[i], src))
  {
    out, changed := [], false;
    for i := 0 to |f|
      invariant out == RetagLines(f[..i], src, dst)
      invariant changed <==> exists j :: 0 <= j < i && (LineProvider(f[j]) == Some(src) || Shadowed(f[j], src))
    {
      var line := f[i];
      if line.Parsed? && line.value.Obj? && RetagRecord(line.value.fields, src, dst).Some? {
        changed := true;
        out := out + [Parsed(Obj(RetagRecord(line.value.fields, src, dst).value))];
      } else {
        out := out + [line];
      }
    }
    assert f[..|f|] == f;
  }

  class CodexHome {
    var files: seq<File>
    var dbs: seq<StateDb>

    constructor (files: seq<File>, dbs: seq<StateDb>)
      ensures this.files == files && this.dbs == dbs
    {
      this.files, this.dbs := files, dbs;
    }

    /** `_provider_counts` */
    method ProviderCounts() returns (counts: map<string, nat>)
      ensures forall p :: CountOf(counts, p) == Count(files, dbs, p)
    {
      counts := map[];
      for i := 0 to |files|
        invariant forall p :: CountOf(counts, p) == CountFiles(files[..i], p)
      {
        assert files[..i + 1][..i] == files[..i];
        counts := AddTags(counts, Tags(files[i]));
      }
      assert files[..|files|] == files;
      for i := 0 to |dbs|
        invariant forall p :: CountOf(counts, p) == CountFiles(files, p) + CountDbs(dbs[..i], p)
      {
        assert dbs[..i + 1][..i] == dbs[..i];
        counts := AddTags(counts, Rows(dbs[i]));
      }
      assert dbs[..|dbs|] == dbs;
    }

    /** Rewrites exactly the files that mention the source. */
    method RetagAllFiles(src: string, dst: string) returns (updated: nat)
      modifies this`files
      ensures files == RetagFiles(old(files), src, dst)
      ensures updated == MatchedFiles(old(files), src)
    {
      updated := 0;
      for i := 0 to |files|
        invariant |files| == |old(files)|
        invariant forall j :: i <= j < |files| ==> files[j] == old(files)[j]
        invariant forall j :: 0 <= j < i ==> files[j] == RetagFile(old(files)[j], src, dst)
        invariant updated == MatchedFiles(old(files)[..i], src)
      {
        assert old(files)[..i + 1][..i] == old(files)[..i];
        if Mentions(files[i], src) {
          var out, changed := RetagJsonlFile(files[i], src, dst);
          assert changed;
          if changed {
            files := files[i := out];
            updated := updated + 1;
          }
        }
      }
      assert old(files)[..|files|] == old(files);
    }

    method RetagAllDbs(src: string, dst: string) returns (updated: nat)
      modifies this`dbs
      ensures dbs == RetagDbs(old(dbs), src, dst)
      ensures updated == CountDbs(old(dbs), src)
    {
      updated := 0;
      for i := 0 to |dbs|
        invariant |dbs| == |old(dbs)|
        invariant forall j :: i <= j < |dbs| ==> dbs[j] == old(dbs)[j]
        invariant forall j :: 0 <= j < i ==> dbs[j] == RetagDb(old(dbs)[j], src, dst)
        invariant updated == CountDbs(old(dbs)[..i], src)
      {
        assert old(dbs)[..i + 1][..i] == old(dbs)[..i];
        var rows := Tally(Rows(dbs[i]), src);
        TallyZero(Rows(dbs[i]), src);
        if rows > 0 {
          dbs := dbs[i := dbs[i].(providers := RetagRows(dbs[i].providers, src, dst))];
          updated := updated + rows;
        }
      }
      assert old(dbs)[..|dbs|] == old(dbs);
    }

    /** `retag_codex_sessions`; None is a rejected pair of providers.  A dry run changes
        nothing and reports what the real run goes on to update. */
    method RetagSessions(src: string, dst: string, dryRun: bool) returns (r: Option<Report>)
      modifies this
      ensures r.None? <==> src == dst || !({src, dst} <= {"openai", "codex-lb"})
      ensures r.None? || dryRun ==> files == old(files) && dbs == old(dbs)
      ensures r.Some? && !dryRun ==>
                files == RetagFiles(old(files), src, dst) && dbs == RetagDbs(old(dbs), src, dst)
      ensures r.Some? ==>
                && r.value.filesMatched == MatchedFiles(old(files), src)
                && r.value.rowsMatched == CountDbs(old(dbs), src)
                && r.value.filesUpdated == (if dryRun then 0 else r.value.filesMatched)
                && r.value.rowsUpdated == (if dryRun then 0 else r.value.rowsMatched)
                && (forall p :: CountOf(r.value.before, p) == Count(old(files), old(dbs), p))
                && (forall p :: CountOf(r.value.after, p) == Count(files, dbs, p))
    {
      if src == dst || !({src, dst} <= SUPPORTED) {
        return None;
      }
      var before := ProviderCounts();
      var filesMatched, rowsMatched := MatchedFiles(files, src), CountDbs(dbs, src);
      if dryRun {
        return Some(Report(filesMatched, 0, rowsMatched, 0, before, before));
      }
      var filesUpdated := RetagAllFiles(src, dst);
      var rowsUpdated := RetagAllDbs(src, dst);
      var after := ProviderCounts();
      return Some(Report(filesMatched, filesUpdated, rowsMatched, rowsUpdated, before, after));
    }
  }

  /** A second run matches nothing. */
  lemma {:induction false} SecondRunFindsNothing(files: seq<File>, dbs: seq<StateDb>, src: string, dst: string)
    requires src != dst
    ensures MatchedFiles(RetagFiles(files, src, dst), src) == 0
    ensures CountDbs(RetagDbs(dbs, src, dst), src) == 0
  {
    FilesMove(files, src, dst, src);
    DbsMove(dbs, src, dst, src);
    NoTagsNoMatches(RetagFiles(files, src, dst), src);
  }

  lemma {:induction false} NoTagsNoMatches(files: seq<File>, p: string)
    requires CountFiles(files, p) == 0
    ensures MatchedFiles(files, p) == 0
  {
    if files != [] {
      NoTagsNoMatches(files[..|files| - 1], p);
      var last := files[|files| - 1];
      TallyZero(Tags(last), p);
      assert forall i :: 0 <= i < |last| ==> Tags(last)[i] == LineProvider(last[i]);
    }
  }

  // ----- The same with the literals spelt out -----

  predicate Tagged(fields: Fields, p: string) { "model_provider" in fields && fields["model_provider"] == Str(p) }

  /** The payload of a session_meta record, and of no other. */
  predicate MetaTagged(fields: Fields, p: string) {
    && "type" in fields && fields["type"] == Str("session_meta")
    && "payload" in fields && fields["payload"].Obj? && Tagged(fields["payload"].fields, p)
  }

  /** A record belongs to the provider of its text tag, or failing that of its session_meta
      payload. */
  lemma {:induction false} ProviderMeans(fields: Fields, p: string)
    ensures RecordProvider(fields) == Some(p) <==>
            || Tagged(fields, p)
            || (!("model_provider" in fields && fields["model_provider"].Str?) && MetaTagged(fields, p))
  {
  }

  /** What the rewriter does to a record: a top-level source tag becomes the target; failing
      that the source tag of a session_meta payload does; any other record is left alone. */
  lemma {:induction false} RetagMeans(fields: Fields, src: string, dst: string)
    ensures RetagLine(Parsed(Obj(fields)), src, dst) ==
              Parsed(Obj(if Tagged(fields, src) then fields["model_provider" := Str(dst)]
                         else if MetaTagged(fields, src)
                         then fields["payload" := Obj(fields["payload"].fields["model_provider" := Str(dst)])]
                         else fields))
  {
  }

  ghost function TaggedAt(tags: seq<Option<string>>, p: string): set<nat> { set i: nat | i < |tags| && tags[i] == Some(p) }

  lemma {:induction false} TallyMeans(tags: seq<Option<string>>, p: string)
    ensures Tally(tags, p) == |TaggedAt(tags, p)|
  {
    if tags != [] {
      var n := |tags| - 1;
      TallyMeans(tags[..n], p);
      if tags[n] == Some(p) {
        assert TaggedAt(tags, p) == TaggedAt(tags[..n], p) + {n};
      } else {
        assert TaggedAt(tags, p) == TaggedAt(tags[..n], p);
      }
    }
  }

  /** A database without the table or the column has no rows to count or update. */
  lemma {:induction false} RowsMeans(db: StateDb, src: string, dst: string)
    ensures !db.hasTable || !db.hasColumn ==> RetagDb(db, src, dst) == db && Tally(Rows(db), src) == 0
    ensures db.hasTable && db.hasColumn ==>
              && |RetagDb(db, src, dst).providers| == |db.providers|
              && forall i :: 0 <= i < |db.providers| ==>
                   RetagDb(db, src, dst).providers[i] == if db.providers[i] == Some(src) then Some(dst) else db.providers[i]
  {
  }

  ghost function FilesWith(files: seq<File>, p: string): set<nat> { set i: nat | i < |files| && Mentions(files[i], p) }

  lemma {:induction false} FilesOneMore(files: seq<File>, p: string)
    requires files != []
    ensures var n := |files| - 1;
            n !in FilesWith(files[..n], p) && FilesWith(files, p) == FilesWith(files[..n], p) + if Mentions(files[n], p) then {n} else {}
  {
    var n := |files| - 1;
    assert forall i :: 0 <= i < n ==> files[..n][i] == files[i];
  }

  lemma {:induction false} MatchedFilesMeans(files: seq<File>, p: string)
    ensures MatchedFiles(files, p) == |FilesWith(files, p)|
  {
    if files != [] {
      MatchedFilesMeans(files[..|files| - 1], p);
      FilesOneMore(files, p);
    }
  }

  lemma {:induction false} MentionsMeans(f: File, p: string)
    ensures Mentions(f, p) <==> Some(p) in Tags(f)
  {
    if Mentions(f, p) {
      var i :| 0 <= i < |f| && LineProvider(f[i]) == Some(p);
      assert Tags(f)[i] == Some(p);
    }
  }

  /** Lines that are not JSON objects belong to nobody and are never rewritten. */
  lemma {:induction false} OtherLinesMean(line: Line, src: string, dst: string)
    requires line.Raw? || !line.value.Obj?
    ensures LineProvider(line) == None && RetagLine(line, src, dst) == line
  {
  }

  /** Counts add up over files and databases. */
  lemma {:induction false} CountAdds(files: seq<File>, f: File, dbs: seq<StateDb>, db: StateDb, p: string)
    ensures Count([], [], p) == 0
    ensures Count(files + [f], dbs, p) == Count(files, dbs, p) + |TaggedAt(Tags(f), p)|
    ensures Count(files, dbs + [db], p) ==
            Count(files, dbs, p) + if db.hasTable && db.hasColumn then |TaggedAt(db.providers, p)| else 0
  {
    assert (files + [f])[..|files|] == files && (dbs + [db])[..|dbs|] == dbs;
    TallyMeans(Tags(f), p);
    TallyMeans(db.providers, p);
  }
}
