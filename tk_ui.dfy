/** The annotation flow of the Tk interface (tk_ui.py): a chunk is shown,
    the user stages or skips it, answers the annotator's questions about a
    staged chunk, and gives the commit message.

    The widgets become fields: the text of the question box, of the user's
    input box and of the code box (with its tagged rows). `sys.exit` becomes
    the `finished` flag, after which no method may be called. The chunker's
    `stage` and `commit` become logs of their calls, the platform's commit
    hashes are parameters, and the colour stripping shell-out is the
    function `stripColors`. */
module TkUi {
  import opened Wrappers
  import opened Strings
  import opened TemplateAnnotator
  import opened ChunkStore

  datatype AnnotationState = Staging | Dialogue | Commit

  /** The two tags of the code box: "add" and "remove". */
  datatype Tag = Add | Remove

  /** `"Stage this chunk? {}".format(["Y", "n"])` */
  const StagePrompt: string := "Stage this chunk? ['Y', 'n']"
  /** `"Please answer {}: Stage this chunk?".format(["Y", "n"])` */
  const StageReprompt: string := "Please answer ['Y', 'n']: Stage this chunk?"
  const CommitPrompt: string := "Commit message:"
  /** The text the input box starts with. */
  const InputPlaceholder: string := "Type here"

  /** The tag of one diff line: added lines start with "+" and removed lines
      with "-", except the "+++" and "---" file headers. */
  function LineTag(line: string): (r: Option<Tag>)
    ensures r == Some(Add) <==> StartsWith(line, "+") && !StartsWith(line, "+++")
    ensures r == Some(Remove) <==> StartsWith(line, "-") && !StartsWith(line, "---")
    ensures r == None <==>
      (!StartsWith(line, "+") && !StartsWith(line, "-")) || StartsWith(line, "+++") || StartsWith(line, "---")
  {
    HeaderPrefix(line);
    if StartsWith(line, "+") || StartsWith(line, "-") then
      if StartsWith(line, "+++") || StartsWith(line, "---") then None
      else if StartsWith(line, "+") then Some(Add)
      else Some(Remove)
    else None
  }

  /** A "+++" line starts with "+", a "---" line with "-", and no line
      starts with both. */
  lemma HeaderPrefix(line: string)
    ensures StartsWith(line, "+++") ==> StartsWith(line, "+") && !StartsWith(line, "-")
    ensures StartsWith(line, "---") ==> StartsWith(line, "-") && !StartsWith(line, "+")
    ensures !(StartsWith(line, "+") && StartsWith(line, "-"))
  {
    if |line| > 0 {
      assert StartsWith(line, "+") <==> line[0] == '+';
      assert StartsWith(line, "-") <==> line[0] == '-';
      assert StartsWith(line, "+++") ==> line[..3][0] == line[0];
      assert StartsWith(line, "---") ==> line[..3][0] == line[0];
    }
  }

  /** The tagged rows among the first `n` lines; the code box numbers its
      rows from 1. */
  function TagsUpTo(lines: seq<string>, n: nat): seq<(nat, Tag)>
    requires n <= |lines|
  {
    if n == 0 then []
    else TagsUpTo(lines, n - 1) + (if LineTag(lines[n - 1]).Some? then [(n, LineTag(lines[n - 1]).value)] else [])
  }

  /** Row `row` carries tag `tag` exactly when line `row - 1` has that tag,
      and the rows come in increasing order. */
  lemma {:induction false} TagsUpToMembers(lines: seq<string>, n: nat)
    requires n <= |lines|
    ensures forall row: nat, tag :: (row, tag) in TagsUpTo(lines, n) <==>
      1 <= row <= n && LineTag(lines[row - 1]) == Some(tag)
    ensures forall i, j :: 0 <= i < j < |TagsUpTo(lines, n)| ==> TagsUpTo(lines, n)[i].0 < TagsUpTo(lines, n)[j].0
    ensures forall i :: 0 <= i < |TagsUpTo(lines, n)| ==> 1 <= TagsUpTo(lines, n)[i].0 <= n
  {
    if n > 0 {
      TagsUpToMembers(lines, n - 1);
    }
  }

  /** The code box text for the first `n` lines: each line followed by a
      newline. */
  function LinesText(lines: seq<string>, n: nat): string
    requires n <= |lines|
  {
    if n == 0 then "" else LinesText(lines, n - 1) + lines[n - 1] + "\n"
  }

  /** The code box shows the (colour-stripped) chunk followed by a newline:
      writing each line and a newline loses and adds nothing else. */
  lemma {:induction false} LinesTextOfSplit(text: string)
    ensures LinesText(Split(text, '\n'), |Split(text, '\n')|) == text + "\n"
  {
    var lines := Split(text, '\n');
    LinesTextJoin(lines, |lines|);
    assert lines[..|lines|] == lines;
    JoinSplit(text, '\n');
  }

  lemma {:induction false} LinesTextJoin(lines: seq<string>, n: nat)
    requires 0 < n <= |lines|
    ensures LinesText(lines, n) == Join("\n", lines[..n]) + "\n"
  {
    if n == 1 {
      assert lines[..1] == [lines[0]];
    } else {
      LinesTextJoin(lines, n - 1);
      assert lines[..n] == lines[..n - 1] + [lines[n - 1]];
      JoinAppend("\n", lines[..n - 1], lines[n - 1]);
    }
  }

  /** The tagged rows of the code box once `text` is written into it. */
  function ShownTags(text: string): seq<(nat, Tag)>
  {
    TagsUpTo(Split(text, '\n'), |Split(text, '\n')|)
  }

  class TkUI {
    const dev: bool
    const annotator: FixedListAnnotator
    const store: Store
    const stripColors: string -> string
    var state: AnnotationState
    var chunks: seq<Chunk>
    var answered: seq<(string, string)>
    /** The question box. */
    var question: string
    /** The user's input box. */
    var userText: string
    /** The code box and its tagged rows. */
    var codeText: string
    var codeTags: seq<(nat, Tag)>
    /** The chunks handed to `chunker.stage`, and the (chunk, message) pairs
        handed to `chunker.commit`, in call order. */
    var staged: seq<Chunk>
    var committed: seq<(Chunk, string)>
    /** `sys.exit` was called. */
    var finished: bool

    /** The code box shows `chunk`: its colour-stripped text and the tags of
        its added and removed lines. */
    predicate Shows(chunk: Chunk)
      reads this
    {
      codeText == stripColors(chunk) + "\n" && codeTags == ShownTags(stripColors(chunk))
    }

    /** While the session runs there is a current chunk, the head of the
        list, and the code box shows it. */
    predicate Valid()
      reads this
    {
      !finished ==> chunks != [] && Shows(chunks[0])
    }

    /** `annotate`: takes the chunker's chunks, the store and the annotator,
        starts in STAGING with nothing answered, and shows the first chunk;
        with no chunks at all the session ends at once. */
    constructor(chunks: seq<Chunk>, store: Store, annotator: FixedListAnnotator, dev: bool, stripColors: string -> string)
      ensures Valid()
      ensures this.store == store && this.annotator == annotator && this.dev == dev && this.stripColors == stripColors
      ensures this.chunks == chunks && answered == [] && staged == [] && committed == []
      ensures finished <==> chunks == []
      ensures !finished ==>
        && state == Staging && question == StagePrompt && userText == InputPlaceholder
        && codeText == stripColors(chunks[0]) + "\n"
    {
      this.dev := dev;
      this.annotator := annotator;
      this.store := store;
      this.stripColors := stripColors;
      this.chunks := chunks;
      answered := [];
      state := Staging;
      question := "";
      userText := InputPlaceholder;
      codeText := "";
      codeTags := [];
      staged := [];
      committed := [];
      finished := false;
      new;
      NextChunk();
    }

    /** `display_chunk`: writes every line of the colour-stripped chunk and
        tags added and removed lines. */
    method DisplayChunk(chunk: Chunk)
      modifies this
      ensures codeText == stripColors(chunk) + "\n"
      ensures codeTags == ShownTags(stripColors(chunk))
      ensures state == old(state) && chunks == old(chunks) && answered == old(answered)
      ensures question == old(question) && userText == old(userText)
      ensures staged == old(staged) && committed == old(committed) && finished == old(finished)
    {
      var text := stripColors(chunk);
      var lines := Split(text, '\n');
      codeText := "";
      codeTags := [];
      for ix := 0 to |lines|
        invariant codeText == LinesText(lines, ix)
        invariant codeTags == TagsUpTo(lines, ix)
        invariant state == old(state) && chunks == old(chunks) && answered == old(answered)
        invariant question == old(question) && userText == old(userText)
        invariant staged == old(staged) && committed == old(committed) && finished == old(finished)
      {
        var line := lines[ix];
        codeText := codeText + line + "\n";
        if StartsWith(line, "+") || StartsWith(line, "-") {
          if StartsWith(line, "+++") || StartsWith(line, "---") {
            continue;
          }
          var tag := if StartsWith(line, "+") then Add else Remove;
          codeTags := codeTags + [(ix + 1, tag)];
        }
      }
      LinesTextOfSplit(text);
    }

    /** `next_chunk`: ends the session when no chunk is left; otherwise
        shows the head chunk and asks whether to stage it. */
    method NextChunk()
      requires !finished
      modifies this
      ensures chunks == old(chunks) && answered == old(answered) && userText == old(userText)
      ensures staged == old(staged) && committed == old(committed)
      ensures finished <==> chunks == []
      ensures finished ==>
        state == old(state) && question == old(question) && codeText == old(codeText) && codeTags == old(codeTags)
      ensures !finished ==> state == Staging && question == StagePrompt && Shows(chunks[0])
    {
      if chunks == [] {
        finished := true;
        return;
      }
      DisplayChunk(chunks[0]);
      question := StagePrompt;
      state := Staging;
    }

    /** `next_question`: shows the annotator's next question, or moves to
        COMMIT and asks for the message once the annotator is done. */
    method NextQuestion()
      modifies this, annotator
      ensures chunks == old(chunks) && answered == old(answered) && userText == old(userText)
      ensures staged == old(staged) && committed == old(committed) && finished == old(finished)
      ensures codeText == old(codeText) && codeTags == old(codeTags)
      ensures annotator.currentChunk == old(annotator.currentChunk)
      ensures old(annotator.questionStack) == [] ==>
        state == Commit && question == CommitPrompt && annotator.questionStack == []
      ensures old(annotator.questionStack) != [] ==>
        && state == old(state)
        && question == old(annotator.questionStack)[0]
        && annotator.questionStack == old(annotator.questionStack)[1..]
    {
      if !annotator.Done() {
        var q := annotator.Ask();
        question := q.value;
      } else {
        question := CommitPrompt;
        state := Commit;
      }
    }

    /** `consume_staging`: "Y" stages the head chunk (outside dev mode),
        hands it to the annotator without removing it and starts the
        dialogue; "n" drops the head chunk and shows the next; anything else
        only re-prompts. */
    method ConsumeStaging()
      requires Valid() && !finished
      modifies this, annotator
      ensures Valid()
      ensures userText == old(userText) && committed == old(committed)
      ensures Strip(old(userText)) != "Y" && Strip(old(userText)) != "n" ==>
        && state == old(state) && chunks == old(chunks) && answered == old(answered)
        && staged == old(staged) && !finished && question == StageReprompt
        && codeText == old(codeText) && codeTags == old(codeTags)
        && annotator.questionStack == old(annotator.questionStack)
        && annotator.currentChunk == old(annotator.currentChunk)
      ensures Strip(old(userText)) == "Y" ==>
        && chunks == old(chunks) && answered == [] && !finished
        && codeText == old(codeText) && codeTags == old(codeTags)
        && staged == old(staged) + (if dev then [] else [old(chunks)[0]])
        && annotator.currentChunk == Some(old(chunks)[0])
        && (annotator.origQuestions == [] ==> state == Commit && question == CommitPrompt)
        && (annotator.origQuestions != [] ==>
              && state == Dialogue
              && question == annotator.origQuestions[|annotator.origQuestions| - 1]
              && annotator.questionStack == Sequences.Reverse(annotator.origQuestions)[1..])
      ensures Strip(old(userText)) == "n" ==>
        && chunks == old(chunks)[1..] && answered == old(answered) && staged == old(staged)
        && annotator.questionStack == old(annotator.questionStack)
        && annotator.currentChunk == old(annotator.currentChunk)
        && (finished <==> chunks == [])
        && (!finished ==> state == Staging && question == StagePrompt && Shows(chunks[0]))
    {
      var answer := Strip(userText);
      if answer != "Y" && answer != "n" {
        question := StageReprompt;
        return;
      }
      if answer == "Y" {
        state := Dialogue;
        answered := [];
        if !dev {
          staged := staged + [chunks[0]];
        }
        annotator.ConsumeChunk(chunks[0]);
        if annotator.origQuestions != [] {
          Sequences.ReverseAt(annotator.origQuestions, 0);
        }
        NextQuestion();
      } else {
        state := Staging;
        chunks := chunks[1..];
        NextChunk();
      }
    }

    /** `commit_chunk`: removes the head chunk; outside dev mode commits it
        with the typed message and records the shown diff between the two
        commit hashes together with the dialogue; then shows the next
        chunk. */
    method CommitChunk(oldHash: string, newHash: string)
      requires Valid() && !finished
      modifies this, store
      ensures Valid()
      ensures chunks == old(chunks)[1..] && answered == old(answered) && userText == old(userText)
      ensures staged == old(staged)
      ensures dev ==> committed == old(committed) && store.chunks == old(store.chunks) && store.dialogue == old(store.dialogue)
      ensures !dev ==>
        && committed == old(committed) + [(old(chunks)[0], Strip(old(userText)))]
        && store.chunks == old(store.chunks) + [ChunkRecord(oldHash, stripColors(old(chunks)[0]) + "\n", newHash)]
        && store.dialogue == old(store.dialogue) + DialogueRows(|store.chunks|, old(answered))
      ensures finished <==> chunks == []
      ensures !finished ==> state == Staging && question == StagePrompt && Shows(chunks[0])
    {
      var commitMsg := Strip(userText);
      var chunk := chunks[0];
      chunks := chunks[1..];
      if !dev {
        committed := committed + [(chunk, commitMsg)];
        var chunkText := codeText;
        var chunkId := store.RecordChunk(ChunkRecord(oldHash, chunkText, newHash));
        var _ := store.RecordDialogue(chunkId, answered);
      }
      state := Staging;
      NextChunk();
    }

    /** `consume_answer`: the Submit button. Dispatches on the state, then
        clears the input box (unless the session just ended). In DIALOGUE
        the answer goes to the annotator and the shown question with the
        answer is appended to the dialogue. */
    method ConsumeAnswer(oldHash: string, newHash: string)
      requires Valid() && !finished
      modifies this, annotator, store
      ensures Valid()
      ensures !finished ==> userText == ""
      ensures old(state) == Staging ==>
        && committed == old(committed)
        && store.chunks == old(store.chunks) && store.dialogue == old(store.dialogue)
        && (Strip(old(userText)) != "Y" && Strip(old(userText)) != "n" ==>
              && state == Staging && chunks == old(chunks) && answered == old(answered) && staged == old(staged)
              && question == StageReprompt && !finished
              && codeText == old(codeText) && codeTags == old(codeTags)
              && annotator.questionStack == old(annotator.questionStack)
              && annotator.currentChunk == old(annotator.currentChunk))
        && (Strip(old(userText)) == "Y" ==>
              && chunks == old(chunks) && answered == [] && !finished
              && codeText == old(codeText) && codeTags == old(codeTags)
              && staged == old(staged) + (if dev then [] else [old(chunks)[0]])
              && annotator.currentChunk == Some(old(chunks)[0])
              && (annotator.origQuestions == [] ==> state == Commit && question == CommitPrompt)
              && (annotator.origQuestions != [] ==>
                    && state == Dialogue
                    && question == annotator.origQuestions[|annotator.origQuestions| - 1]
                    && annotator.questionStack == Sequences.Reverse(annotator.origQuestions)[1..]))
        && (Strip(old(userText)) == "n" ==>
              && chunks == old(chunks)[1..] && answered == old(answered) && staged == old(staged)
              && annotator.questionStack == old(annotator.questionStack)
              && annotator.currentChunk == old(annotator.currentChunk)
              && (finished <==> chunks == [])
              && (!finished ==> state == Staging && question == StagePrompt && Shows(chunks[0])))
      ensures old(state) == Dialogue ==>
        && chunks == old(chunks) && staged == old(staged) && committed == old(committed) && !finished
        && answered == old(answered) + [(Strip(old(question)), Strip(old(userText)))]
        && store.chunks == old(store.chunks) && store.dialogue == old(store.dialogue)
        && codeText == old(codeText) && codeTags == old(codeTags)
        && annotator.currentChunk == old(annotator.currentChunk)
        && (old(annotator.questionStack) == [] ==>
              state == Commit && question == CommitPrompt && annotator.questionStack == [])
        && (old(annotator.questionStack) != [] ==>
              state == Dialogue && question == old(annotator.questionStack)[0]
              && annotator.questionStack == old(annotator.questionStack)[1..])
      ensures old(state) == Commit ==>
        && chunks == old(chunks)[1..] && answered == old(answered) && staged == old(staged)
        && annotator.questionStack == old(annotator.questionStack)
        && annotator.currentChunk == old(annotator.currentChunk)
        && (finished <==> chunks == [])
        && (!finished ==> state == Staging && question == StagePrompt && Shows(chunks[0]))
        && (dev ==>
              committed == old(committed) && store.chunks == old(store.chunks) && store.dialogue == old(store.dialogue))
        && (!dev ==>
              && committed == old(committed) + [(old(chunks)[0], Strip(old(userText)))]
              && store.chunks == old(store.chunks) + [ChunkRecord(oldHash, stripColors(old(chunks)[0]) + "\n", newHash)]
              && store.dialogue == old(store.dialogue) + DialogueRows(|store.chunks|, old(answered)))
    {
      match state {
        case Staging =>
          ConsumeStaging();
        case Dialogue =>
          var q := Strip(question);
          var a := Strip(userText);
          annotator.ConsumeAnswer(a);
          answered := answered + [(q, a)];
          NextQuestion();
        case Commit =>
          CommitChunk(oldHash, newHash);
      }
      if !finished {
        userText := "";
      }
    }
  }
}
