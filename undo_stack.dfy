/**
 * The layer's undo stack as the edit buffer sees it: a list of pushed
 * commands, the current index into it, and the clean index that tells
 * whether the layer has unsaved edits. Only the stack bookkeeping of
 * QUndoStack is modelled (push drops the redo tail; setIndex moves the
 * index); what a command does when it is done or undone belongs to the
 * undo command classes.
 */
module UndoHistory {
  import opened EditTypes

  /** The commands on the stack, the index of the next command to redo
      (every command below it is done), and the index at which the stack
      was last marked clean, or -1 when that state was pushed away. */
  datatype History = History(commands: seq<UndoCommand>, index: nat, cleanIndex: int)
  {
    predicate Valid()
    {
      index <= |commands| && -1 <= cleanIndex <= |commands|
    }

    predicate IsClean()
    {
      index == cleanIndex
    }
  }

  /** The history after pushing cmds one after the other: each push drops
      the commands above the index, appends, and moves the index to the
      top; a clean state above the index is lost with the redo tail. */
  function Pushes(h: History, cmds: seq<UndoCommand>): History
    requires h.Valid()
  {
    if cmds == [] then h
    else History(h.commands[..h.index] + cmds, h.index + |cmds|,
                 if h.cleanIndex > h.index then -1 else h.cleanIndex)
  }

  /** Pushing one batch after another is pushing both. */
  lemma PushesAppend(h: History, a: seq<UndoCommand>, b: seq<UndoCommand>)
    requires h.Valid()
    ensures Pushes(h, a).Valid()
    ensures Pushes(Pushes(h, a), b) == Pushes(h, a + b)
  {
    if a == [] {
      assert a + b == b;
    } else if b != [] {
      var m := Pushes(h, a);
      assert m.commands[..m.index] == h.commands[..h.index] + a;
      assert m.commands[..m.index] + b == h.commands[..h.index] + (a + b);
    }
  }

  /** After any push the done commands end with the pushed ones, nothing is
      left to redo, and the stack is no longer clean. */
  lemma PushesRecord(h: History, cmds: seq<UndoCommand>)
    requires h.Valid() && cmds != []
    ensures var r := Pushes(h, cmds);
      && r.Valid()
      && r.index == |r.commands|
      && r.commands[..h.index] == h.commands[..h.index]
      && r.commands[h.index..] == cmds
      && !r.IsClean()
  {
    var r := Pushes(h, cmds);
    assert r.commands[..h.index] == h.commands[..h.index];
    assert r.commands[h.index..] == cmds;
  }

  /** A stack that is clean at index 0 keeps its clean index at 0 through
      any pushes, so returning to index 0 makes it clean again. */
  lemma PushesFromCleanStart(h: History, cmds: seq<UndoCommand>)
    requires h.Valid() && h.cleanIndex == 0
    ensures Pushes(h, cmds).Valid()
    ensures Pushes(h, cmds).cleanIndex == 0
    ensures Pushes(h, cmds).(index := 0).IsClean()
  {
  }

  /** QUndoStack, reduced to the bookkeeping the edit buffer relies on. */
  class UndoStack {
    var commands: seq<UndoCommand>
    var index: nat
    var cleanIndex: int

    function State(): History
      reads this
    {
      History(commands, index, cleanIndex)
    }

    ghost predicate Valid()
      reads this
    {
      State().Valid()
    }

    /** A new stack is empty and clean. */
    constructor ()
      ensures State() == History([], 0, 0) && Valid()
    {
      commands := [];
      index := 0;
      cleanIndex := 0;
    }

    /** push: the commands above the index are dropped, the command is
        appended and becomes the top done command. */
    method Push(cmd: UndoCommand)
      requires Valid()
      modifies this
      ensures Valid()
      ensures State() == Pushes(old(State()), [cmd])
    {
      if cleanIndex > index {
        cleanIndex := -1;
      }
      commands := commands[..index] + [cmd];
      index := |commands|;
    }

    /** setIndex: undo or redo until the index is idx. */
    method SetIndex(idx: nat)
      requires Valid() && idx <= |commands|
      modifies this
      ensures Valid()
      ensures State() == old(State()).(index := idx)
    {
      index := idx;
    }
  }
}
