/** The fixed-list annotator (template_annotator.py): the same list of
    questions is asked about every chunk. */
module TemplateAnnotator {
  import opened Wrappers
  import opened Sequences

  /** A chunk of a staged diff, as the text shown to the user. */
  type Chunk = string

  class FixedListAnnotator {
    /** The questions given at construction; never modified. */
    const origQuestions: seq<string>
    /** The questions still to ask about the current chunk, next one first. */
    var questionStack: seq<string>
    var currentChunk: Option<Chunk>

    /** `__init__`: keeps the questions and fills the stack with them
        reversed. */
    constructor(questions: seq<string>)
      ensures origQuestions == questions
      ensures questionStack == Reverse(questions)
      ensures currentChunk == None
    {
      origQuestions := questions;
      currentChunk := None;
      questionStack := Reverse(questions);
    }

    /** `_init_stack`: the stack is the original questions, last first. */
    method InitStack()
      modifies this
      ensures questionStack == Reverse(origQuestions)
      ensures currentChunk == old(currentChunk)
    {
      questionStack := Reverse(origQuestions);
    }

    /** `consume_chunk`: starts the questions over, whatever was asked
        before, and records the chunk. */
    method ConsumeChunk(chunk: Chunk)
      modifies this
      ensures questionStack == Reverse(origQuestions)
      ensures currentChunk == Some(chunk)
    {
      InitStack();
      currentChunk := Some(chunk);
    }

    /** `get_chunk_update`: this annotator never updates the chunk. */
    function GetChunkUpdate(): (r: Option<Chunk>)
      ensures r == None
    {
      None
    }

    /** `done`: no question is left. */
    function Done(): (r: bool)
      reads this
      ensures r <==> |questionStack| == 0
    {
      |questionStack| == 0
    }

    /** `ask`: nothing when done; otherwise removes and returns the first
        question of the stack. */
    method Ask() returns (q: Option<string>)
      modifies this
      ensures old(questionStack) == [] ==> q == None && questionStack == []
      ensures old(questionStack) != [] ==>
        q == Some(old(questionStack)[0]) && questionStack == old(questionStack)[1..]
      ensures currentChunk == old(currentChunk)
    {
      if Done() {
        q := None;
      } else {
        q := Some(questionStack[0]);
        questionStack := questionStack[1..];
      }
    }

    /** `consume_answer`: the answer is ignored; nothing changes. */
    method ConsumeAnswer(answer: string)
      ensures unchanged(this)
    {
    }

    /** `has_commit_message`: this annotator never proposes a commit
        message. */
    function HasCommitMessage(): (r: bool)
      ensures !r
    {
      false
    }
  }

  /** The annotation loop of a client (`while not annotator.done(): ask`) on
      a freshly consumed chunk: it asks exactly as many questions as the
      annotator was given, from the last to the first. */
  method AskAll(a: FixedListAnnotator, chunk: Chunk) returns (asked: seq<string>)
    modifies a
    ensures |asked| == |a.origQuestions|
    ensures asked == Reverse(a.origQuestions)
    ensures forall k :: 0 <= k < |asked| ==> asked[k] == a.origQuestions[|a.origQuestions| - 1 - k]
    ensures a.Done() && a.currentChunk == Some(chunk)
  {
    a.ConsumeChunk(chunk);
    asked := [];
    while !a.Done()
      invariant asked + a.questionStack == Reverse(a.origQuestions)
      invariant a.currentChunk == Some(chunk)
      decreases |a.questionStack|
    {
      var q := a.Ask();
      asked := asked + [q.value];
    }
    forall k | 0 <= k < |asked|
      ensures asked[k] == a.origQuestions[|a.origQuestions| - 1 - k]
    {
      ReverseAt(a.origQuestions, k);
    }
  }
}
