/** The hub's side of a migration (speechtotext/api/routes_import.py): pair a staged audio file with
    a transcript document, store the document as it is but for its audio path, and index it. */
module ImportRoute {
  import opened Wrappers
  import Trash

  /** A document as sent; the two flags are what the shape check looks at. */
  datatype Sent = Sent(body: Trash.Body, audioPath: Option<string>, segmentsAreDicts: bool, speakersAreDict: bool)

  datatype Stored = Stored(body: Trash.Body, audioPath: Option<string>)

  datatype Reply = Imported | Exists | BadRequest

  predicate Alnum(c: char) {
    'A' <= c <= 'Z' || 'a' <= c <= 'z' || '0' <= c <= '9'
  }

  predicate TidOk(tid: string) {
    1 <= |tid| <= 255 && Alnum(tid[0]) && forall c :: c in tid ==> Alnum(c) || c == '.' || c == '_' || c == '-'
  }

  predicate RefOk(ref: string) {
    '/' !in ref && '\\' !in ref && |ref| >= 7 && ref[|ref| - 7..] == ".import"
  }

  /** An id of letters, digits and the marks "._-", that starts with no mark. */
  ghost predicate PlainId(tid: string) {
    && 1 <= |tid| <= 255 && tid[0] !in "._-"
    && forall c :: c in tid ==> 'A' <= c <= 'Z' || 'a' <= c <= 'z' || '0' <= c <= '9' || c in "._-"
  }

  lemma TidIsPlain(tid: string)
    ensures TidOk(tid) <==> PlainId(tid)
  {
    assert forall c :: c in "._-" <==> c == '.' || c == '_' || c == '-';
    assert tid != [] ==> tid[0] in tid;
  }

  /** The name of a staged file: no path, and it ends in ".import". */
  ghost predicate Names(ref: string) {
    '/' !in ref && '\\' !in ref && exists token :: ref == token + ".import"
  }

  lemma RefEnds(ref: string)
    ensures RefOk(ref) <==> Names(ref)
  {
    if RefOk(ref) {
      assert ref == ref[..|ref| - 7] + ".import";
    }
    if token :| ref == token + ".import" {
      assert ref[|ref| - 7..] == ".import";
    }
  }

  /** `indexed`: ids with a row; `files`: the documents in `incoming`, by id. */
  class Hub {
    var indexed: set<string>
    var files: map<string, Stored>
    var staged: set<string>
    var audio: set<string>

    constructor ()
      ensures indexed == {} && files == map[] && staged == {} && audio == {}
    {
      indexed, files, staged, audio := {}, map[], {}, {};
    }

    /** `finalName`: the time-stamped name the audio gets. */
    method PostImport(tid: string, doc: Sent, ref: Option<string>, finalName: string) returns (r: Reply)
      modifies this
      ensures var known := tid in old(indexed) || tid in old(files);
              var valid := PlainId(tid) && doc.segmentsAreDicts && doc.speakersAreDict;
              && (r == Exists <==> valid && known)
              && (r == Imported <==> valid && !known && (ref.Some? ==> Names(ref.value) && ref.value in old(staged)))
      ensures r == Imported ==>
          && indexed == old(indexed) + {tid}
          && files == old(files)[tid := Stored(doc.body, if ref.Some? then Some(finalName) else None)]
          && staged == (if ref.Some? then old(staged) - {ref.value} else old(staged))
          && audio == (if ref.Some? then old(audio) + {finalName} else old(audio))
      ensures r != Imported ==>
          indexed == old(indexed) && files == old(files) && staged == old(staged) && audio == old(audio)
    {
      TidIsPlain(tid);
      if !TidOk(tid) || !doc.segmentsAreDicts || !doc.speakersAreDict {
        return BadRequest;
      }
      if ref.Some? {
        RefEnds(ref.value);
      }
      if tid in indexed || tid in files {
        return Exists;
      }
      var audioPath := None;
      if ref.Some? {
        if !RefOk(ref.value) || ref.value !in staged {
          return BadRequest;
        }
        staged, audio := staged - {ref.value}, audio + {finalName};
        audioPath := Some(finalName);
      }
      files := files[tid := Stored(doc.body, audioPath)];
      indexed := indexed + {tid};
      r := Imported;
    }

    /** Pushing one transcript again. The first push makes the hub's copy verify against what was
        sent; a later push of an edited version is answered with `Exists` and leaves the first copy,
        so it verifies exactly if the edit left the three fields alone. */
    method PushTwice(tid: string, first: Sent, ref1: Option<string>, name1: string,
                     second: Sent, ref2: Option<string>, name2: string) returns (r1: Reply, r2: Reply)
      requires PlainId(tid) && tid !in indexed && tid !in files
      requires first.segmentsAreDicts && first.speakersAreDict && second.segmentsAreDicts && second.speakersAreDict
      requires ref1.Some? ==> Names(ref1.value) && ref1.value in staged
      modifies this
      ensures r1 == Imported && r2 == Exists && tid in files
      ensures var copy, one, two := files[tid].body, first.body, second.body;
              && copy.segments == one.segments && copy.speakers == one.speakers && copy.title == one.title
              && (copy.segments == two.segments && copy.speakers == two.speakers && copy.title == two.title
                  <==> one.segments == two.segments && one.speakers == two.speakers && one.title == two.title)
      ensures ref2.Some? && ref1 != ref2 && ref2.value in old(staged) ==> ref2.value in staged
    {
      r1 := PostImport(tid, first, ref1, name1);
      r2 := PostImport(tid, second, ref2, name2);
    }
  }
}
