/** The store that the Tk flow and the git log replay write to
    (database.py), reduced to what they use of it: two append-only tables.
    A row's id is its 1-based position, which is what SQLite assigns to an
    `INTEGER PRIMARY KEY` of a table that is only ever appended to. */
module ChunkStore {

  /** A row of `Chunks`: the commit before, the diff text, the commit after. */
  datatype ChunkRecord = ChunkRecord(preHash: string, chunk: string, postHash: string)

  /** A row of `Dialogue`: one answered question about a recorded chunk. */
  datatype DialogueRecord = DialogueRecord(question: string, answer: string, chunkId: nat)

  /** The dialogue rows of `answered`, all about chunk `chunkId`. */
  function DialogueRows(chunkId: nat, answered: seq<(string, string)>): seq<DialogueRecord>
  {
    seq(|answered|, i requires 0 <= i < |answered| => DialogueRecord(answered[i].0, answered[i].1, chunkId))
  }

  class Store {
    var chunks: seq<ChunkRecord>
    var dialogue: seq<DialogueRecord>

    constructor()
      ensures chunks == [] && dialogue == []
    {
      chunks := [];
      dialogue := [];
    }

    /** `record_chunk`: appends one chunk row and returns its id. */
    method RecordChunk(record: ChunkRecord) returns (id: nat)
      modifies this
      ensures chunks == old(chunks) + [record]
      ensures dialogue == old(dialogue)
      ensures id == |chunks| && chunks[id - 1] == record
    {
      chunks := chunks + [record];
      id := |chunks|;
    }

    /** `record_dialogue`: appends one row per answered question, in order,
        and returns their ids. */
    method RecordDialogue(chunkId: nat, answered: seq<(string, string)>) returns (ids: seq<nat>)
      modifies this
      ensures chunks == old(chunks)
      ensures dialogue == old(dialogue) + DialogueRows(chunkId, answered)
      ensures |ids| == |answered|
      ensures forall i :: 0 <= i < |ids| ==> ids[i] == |old(dialogue)| + i + 1
    {
      ids := [];
      for i := 0 to |answered|
        invariant chunks == old(chunks)
        invariant dialogue == old(dialogue) + DialogueRows(chunkId, answered[..i])
        invariant |ids| == i
        invariant forall j :: 0 <= j < i ==> ids[j] == |old(dialogue)| + j + 1
      {
        var (question, answer) := answered[i];
        assert DialogueRows(chunkId, answered[..i + 1]) == DialogueRows(chunkId, answered[..i]) + [DialogueRecord(question, answer, chunkId)];
        dialogue := dialogue + [DialogueRecord(question, answer, chunkId)];
        ids := ids + [|dialogue|];
      }
      assert answered[..|answered|] == answered;
    }
  }
}
