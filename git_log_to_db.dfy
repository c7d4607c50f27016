/** Replay of the git history into the store (git_log_to_db.py): each pair
    of consecutive commits, oldest first, becomes a recorded chunk with a
    one-question dialogue holding the newer commit's message. The log and
    the diff between two commits come from git and are given. */
module GitLogToDb {
  import opened Sequences
  import opened ChunkStore

  /** The fields of a `git log` entry that the replay reads. */
  datatype LogEntry = LogEntry(abbreviatedCommit: string, subject: string, body: string)

  /** The question every replayed dialogue asks. */
  const CommitQuestion: string := "Commit: "

  /** The chunk recorded for two consecutive entries. */
  function PairRecord(older: LogEntry, newer: LogEntry, diff: (string, string) -> string): ChunkRecord
  {
    ChunkRecord(older.abbreviatedCommit, diff(older.abbreviatedCommit, newer.abbreviatedCommit), newer.abbreviatedCommit)
  }

  /** The number of consecutive pairs of `n` entries. */
  function PairCount(n: nat): nat
  {
    if n == 0 then 0 else n - 1
  }

  /** The chunks the replay records for entries listed oldest first. */
  function ReplayChunks(entries: seq<LogEntry>, diff: (string, string) -> string): seq<ChunkRecord>
  {
    seq(PairCount(|entries|), k requires 0 <= k < PairCount(|entries|) => PairRecord(entries[k], entries[k + 1], diff))
  }

  /** The dialogue rows the replay records, the first one about chunk
      `firstId`. */
  function ReplayDialogue(entries: seq<LogEntry>, firstId: nat): seq<DialogueRecord>
  {
    seq(PairCount(|entries|), k requires 0 <= k < PairCount(|entries|) =>
      DialogueRecord(CommitQuestion, entries[k + 1].subject + entries[k + 1].body, firstId + k))
  }

  /** `log_to_db`: walks the reversed log and records, for each entry after
      the first, the diff from the entry before it and the entry's message. */
  method LogToDb(store: Store, log: seq<LogEntry>, diff: (string, string) -> string)
    modifies store
    ensures store.chunks == old(store.chunks) + ReplayChunks(Reverse(log), diff)
    ensures store.dialogue == old(store.dialogue) + ReplayDialogue(Reverse(log), |old(store.chunks)| + 1)
  {
    var entries := Reverse(log);
    var n := |entries|;
    ghost var base := |store.chunks|;
    ghost var chunks := ReplayChunks(entries, diff);
    ghost var rows := ReplayDialogue(entries, base + 1);
    var ix := 1;
    while ix < n
      invariant 1 <= ix && ix - 1 <= PairCount(n)
      invariant store.chunks == old(store.chunks) + chunks[..ix - 1]
      invariant store.dialogue == old(store.dialogue) + rows[..ix - 1]
      invariant |store.chunks| == base + ix - 1
    {
      var prevCommit := entries[ix - 1];
      var currCommit := entries[ix];
      var oldHash := prevCommit.abbreviatedCommit;
      var newHash := currCommit.abbreviatedCommit;
      var chunk := diff(oldHash, newHash);
      var question := CommitQuestion;
      var answer := currCommit.subject + currCommit.body;
      var answered := [(question, answer)];
      var chunkId := store.RecordChunk(ChunkRecord(oldHash, chunk, newHash));
      assert chunks[ix - 1] == ChunkRecord(oldHash, chunk, newHash);
      var _ := store.RecordDialogue(chunkId, answered);
      assert DialogueRows(chunkId, answered) == [rows[ix - 1]];
      PrefixStep(chunks, ix - 1);
      PrefixStep(rows, ix - 1);
      ix := ix + 1;
    }
    assert chunks[..PairCount(n)] == chunks;
    assert rows[..PairCount(n)] == rows;
  }

  lemma PrefixStep<T>(s: seq<T>, i: nat)
    requires i < |s|
    ensures s[..i + 1] == s[..i] + [s[i]]
  {
  }

  /** Zero or one entry records nothing; `n` entries record `n - 1` chunks
      and as many dialogue rows. */
  lemma ReplayCount(log: seq<LogEntry>, diff: (string, string) -> string, firstId: nat)
    ensures |log| <= 1 ==> ReplayChunks(Reverse(log), diff) == [] && ReplayDialogue(Reverse(log), firstId) == []
    ensures |log| >= 1 ==> |ReplayChunks(Reverse(log), diff)| == |ReplayDialogue(Reverse(log), firstId)| == |log| - 1
  {
  }

  /** Oldest first: record `k` goes from the `k`-th oldest commit to the next
      one, so each record starts at the commit where the previous one
      ended. */
  lemma ReplayChain(log: seq<LogEntry>, diff: (string, string) -> string)
    ensures var r := ReplayChunks(Reverse(log), diff);
      && (forall k :: 0 <= k < |r| ==>
            && r[k].preHash == log[|log| - 1 - k].abbreviatedCommit
            && r[k].postHash == log[|log| - 2 - k].abbreviatedCommit)
      && (forall k :: 0 <= k < |r| - 1 ==> r[k].postHash == r[k + 1].preHash)
  {
    var r := ReplayChunks(Reverse(log), diff);
    forall k | 0 <= k < |r|
      ensures r[k].preHash == log[|log| - 1 - k].abbreviatedCommit
      ensures r[k].postHash == log[|log| - 2 - k].abbreviatedCommit
    {
      ReplayChainAt(log, diff, k);
    }
    forall k | 0 <= k < |r| - 1
      ensures r[k].postHash == r[k + 1].preHash
    {
      ReplayChainAt(log, diff, k);
      ReplayChainAt(log, diff, k + 1);
    }
  }

  lemma ReplayChainAt(log: seq<LogEntry>, diff: (string, string) -> string, k: nat)
    requires k < |ReplayChunks(Reverse(log), diff)|
    ensures ReplayChunks(Reverse(log), diff)[k].preHash == log[|log| - 1 - k].abbreviatedCommit
    ensures ReplayChunks(Reverse(log), diff)[k].postHash == log[|log| - 2 - k].abbreviatedCommit
  {
    var entries := Reverse(log);
    assert ReplayChunks(entries, diff)[k] == PairRecord(entries[k], entries[k + 1], diff);
    ReverseAt(log, k);
    ReverseAt(log, k + 1);
  }

  /** Row `row` is the "Commit: " question about chunk `chunks[id - 1]`,
      which goes from `older` to `newer`, answered with `newer`'s message. */
  predicate RowMatches(chunks: seq<ChunkRecord>, row: DialogueRecord, older: LogEntry, newer: LogEntry, diff: (string, string) -> string)
  {
    && 1 <= row.chunkId <= |chunks|
    && chunks[row.chunkId - 1] == PairRecord(older, newer, diff)
    && row.question == CommitQuestion
    && row.answer == newer.subject + newer.body
  }

  /** Every replayed dialogue row is the single "Commit: " question about
      the chunk recorded just before it, answered with the newer commit's
      subject and body. */
  lemma ReplayDialogueMatchesChunks(prefix: seq<ChunkRecord>, entries: seq<LogEntry>, diff: (string, string) -> string)
    ensures |ReplayDialogue(entries, |prefix| + 1)| == PairCount(|entries|)
    ensures forall k :: 0 <= k < PairCount(|entries|) ==>
      RowMatches(prefix + ReplayChunks(entries, diff), ReplayDialogue(entries, |prefix| + 1)[k], entries[k], entries[k + 1], diff)
  {
    forall k | 0 <= k < PairCount(|entries|)
      ensures RowMatches(prefix + ReplayChunks(entries, diff), ReplayDialogue(entries, |prefix| + 1)[k], entries[k], entries[k + 1], diff)
    {
      RowMatchesChunk(prefix, entries, diff, k);
    }
  }

  lemma RowMatchesChunk(prefix: seq<ChunkRecord>, entries: seq<LogEntry>, diff: (string, string) -> string, k: nat)
    requires k < PairCount(|entries|)
    ensures RowMatches(prefix + ReplayChunks(entries, diff), ReplayDialogue(entries, |prefix| + 1)[k], entries[k], entries[k + 1], diff)
  {
    var replayed := ReplayChunks(entries, diff);
    var row := ReplayDialogue(entries, |prefix| + 1)[k];
    assert row == DialogueRecord(CommitQuestion, entries[k + 1].subject + entries[k + 1].body, |prefix| + 1 + k);
    assert replayed[k] == PairRecord(entries[k], entries[k + 1], diff);
    assert (prefix + replayed)[|prefix| + k] == replayed[k];
  }
}
