/** Errors annotated with a stack of call-site frames
    (vendor/github.com/jackmanlabs/errors/errors.go). The frame that the library
    obtains from the runtime is passed in by the caller. */
module Errors {
  import opened Strings
  import opened Wrappers

  /** One call site: function name, line and file. */
  datatype Frame = Frame(fnc: string, line: int, file: string)

  /** The text `Error()` prints for one frame, `%s:%d\t(%s)` without the newline. */
  function FrameLine(f: Frame): string {
    f.file + ":" + IntToString(f.line) + "\t(" + f.fnc + ")"
  }

  function FrameLines(frames: seq<Frame>): (r: seq<string>)
    ensures |r| == |frames|
    ensures forall k :: 0 <= k < |frames| ==> r[k] == FrameLine(frames[k])
  {
    seq(|frames|, k requires 0 <= k < |frames| => FrameLine(frames[k]))
  }

  /** The message of an annotated error: the root error's message on a line of its
      own, then one line per frame, oldest first. */
  function ErrorText(root: string, frames: seq<Frame>): string {
    root + "\n" + Terminated(FrameLines(frames))
  }

  /** Writing one more frame's line extends the text by that line. */
  lemma FramesTextSnoc(fs: seq<Frame>, i: nat)
    requires i < |fs|
    ensures Terminated(FrameLines(fs[..i + 1])) == Terminated(FrameLines(fs[..i])) + FrameLine(fs[i]) + "\n"
  {
    var before := FrameLines(fs[..i]);
    var after := FrameLines(fs[..i + 1]);
    assert after == before + [FrameLine(fs[i])] by {
      forall k | 0 <= k < |after| ensures after[k] == (before + [FrameLine(fs[i])])[k] {
        assert fs[..i + 1][k] == fs[k];
      }
    }
    TerminatedSnoc(before, FrameLine(fs[i]));
  }

  lemma ErrorTextSnoc(root: string, fs: seq<Frame>, i: nat)
    requires i < |fs|
    ensures ErrorText(root, fs[..i + 1]) == ErrorText(root, fs[..i]) + FrameLine(fs[i]) + "\n"
  {
    FramesTextSnoc(fs, i);
  }

  class Error {
    /** The message of the wrapped root error. */
    var root: string
    var frames: seq<Frame>

    constructor (root: string, frame: Frame)
      ensures this.root == root && frames == [frame]
    {
      this.root := root;
      frames := [frame];
    }

    /** `(*Error).Error`: writes the root line and then each frame's line into a buffer. */
    method Error() returns (s: string)
      ensures s == ErrorText(root, frames)
    {
      var fs := frames;
      s := root + "\n";
      assert s == ErrorText(root, fs[..0]);
      for i := 0 to |fs|
        invariant s == ErrorText(root, fs[..i])
      {
        ErrorTextSnoc(root, fs, i);
        s := s + FrameLine(fs[i]) + "\n";
      }
      assert fs[..|fs|] == fs;
    }
  }

  /** The dynamic type of a Go `error` handed to `Stack`: an `*Error` of this
      package, or any other error, known here by its message. */
  datatype ErrorValue = Plain(message: string) | Stacked(err: Error)

  /** `Stack`: nil stays nil; an `*Error` gains the frame in place and is returned
      itself; any other error is wrapped in a fresh `*Error` with the one frame. */
  method Stack(err: Option<ErrorValue>, frame: Frame) returns (r: Error?)
    modifies if err.Some? && err.value.Stacked? then {err.value.err} else {}
    ensures err.None? ==> r == null
    ensures err.Some? && err.value.Stacked? ==>
      r == err.value.err && r.root == old(r.root) && r.frames == old(r.frames) + [frame]
    ensures err.Some? && err.value.Plain? ==>
      r != null && fresh(r) && r.root == err.value.message && r.frames == [frame]
  {
    if err.None? {
      return null;
    }
    match err.value
    case Stacked(e) =>
      e.frames := e.frames + [frame];
      r := e;
    case Plain(message) =>
      r := new Error(message, frame);
  }

  /** `New`: a fresh error whose root message is `msg`, with the caller's frame. */
  method New(msg: string, frame: Frame) returns (r: Error)
    ensures fresh(r) && r.root == msg && r.frames == [frame]
  {
    r := new Error(msg, frame);
  }

  /** The printed message has the root on its first line and one line per frame
      after it, in frame order, each line ended by a newline. */
  lemma ErrorTextLines(root: string, frames: seq<Frame>)
    requires '\n' !in root
    requires forall k :: 0 <= k < |frames| ==> '\n' !in frames[k].file && '\n' !in frames[k].fnc
    ensures Split(ErrorText(root, frames), '\n') == [root] + FrameLines(frames) + [""]
  {
    var lines := FrameLines(frames);
    forall k | 0 <= k < |lines| ensures '\n' !in lines[k] {
      assert lines[k] == frames[k].file + ":" + IntToString(frames[k].line) + "\t(" + frames[k].fnc + ")";
    }
    SplitCons(root, '\n', Terminated(lines));
    SplitTerminated(lines);
  }
}
