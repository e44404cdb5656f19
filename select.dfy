/** The adapter picker of models/select.go: a cursor over a list of options
    and its text rendering. */
module SelectModel {
  import opened Types
  import opened Table

  /** The cursor after one message: up and down stop at the ends, anything
      else leaves it where it is. */
  function SelectStep(selected: int, count: nat, msg: Msg): (r: int)
    ensures 0 <= selected < count ==> 0 <= r < count
    ensures count == 0 && selected == 0 ==> r == 0
    ensures !(msg.Key? && (IsUp(msg.key) || IsDown(msg.key))) ==> r == selected
    ensures msg.Key? && IsUp(msg.key) ==> r == if selected > 0 then selected - 1 else selected
    ensures msg.Key? && IsDown(msg.key) ==> r == if selected < count - 1 then selected + 1 else selected
    ensures -1 <= r - selected <= 1
  {
    match msg
    case Key(key) =>
      if IsUp(key) then (if selected > 0 then selected - 1 else selected)
      else if IsDown(key) then (if selected < count - 1 then selected + 1 else selected)
      else selected
    case _ => selected
  }

  /** The line of option i: the cursor "  > " on the selected one, four
      spaces on the others, then the option and a newline. */
  function OptionLine(opt: string, i: int, selected: int): (line: string)
    ensures |line| == |opt| + 5
    ensures line[..4] == (if i == selected then "  > " else "    ")
    ensures line[4..] == opt + "\n"
  {
    (if i == selected then "  > " else "    ") + opt + "\n"
  }

  /** The lines of the first |opts| options, concatenated. */
  function Lines(opts: seq<string>, selected: int): string {
    if opts == [] then ""
    else Lines(opts[..|opts| - 1], selected) + OptionLine(opts[|opts| - 1], |opts| - 1, selected)
  }

  /** What Select.View renders. */
  function ViewText(opts: seq<string>, selected: int): string {
    if |opts| == 0 then "(no adapters found)" else Lines(opts, selected)
  }

  /** Every option contributes exactly its own line: the text splits into
      the lines for options 0..n-1, in order. */
  lemma {:induction false} LinesSplit(opts: seq<string>, selected: int, n: nat)
    requires n <= |opts|
    ensures Lines(opts, selected) == Lines(opts[..n], selected) + Lines2(opts, selected, n)
    decreases |opts| - n
  {
    if n < |opts| {
      LinesSplit(opts, selected, n + 1);
      assert opts[..n + 1][..n] == opts[..n];
      assert Lines(opts[..n + 1], selected) == Lines(opts[..n], selected) + OptionLine(opts[n], n, selected);
    } else {
      assert opts[..n] == opts;
    }
  }

  /** The lines of options n.., in order. */
  function Lines2(opts: seq<string>, selected: int, n: nat): string
    requires n <= |opts|
    decreases |opts| - n
  {
    if n == |opts| then "" else OptionLine(opts[n], n, selected) + Lines2(opts, selected, n + 1)
  }

  /** The length of the rendering: four cursor characters, the option and a
      newline per option. */
  function TotalLength(opts: seq<string>): nat {
    if opts == [] then 0 else TotalLength(opts[..|opts| - 1]) + 5 + |opts[|opts| - 1]|
  }

  lemma {:induction false} LinesLength(opts: seq<string>, selected: int)
    ensures |Lines(opts, selected)| == TotalLength(opts)
  {
    if opts != [] {
      LinesLength(opts[..|opts| - 1], selected);
    }
  }

  /** The number of rendered option lines that begin with the cursor. */
  function CursorCount(opts: seq<string>, selected: int): nat {
    if opts == [] then 0
    else
      var n := |opts| - 1;
      CursorCount(opts[..n], selected) + (if OptionLine(opts[n], n, selected)[..4] == "  > " then 1 else 0)
  }

  /** Exactly one line carries the cursor when the selection is in range,
      none otherwise. */
  lemma {:induction false} OneCursor(opts: seq<string>, selected: int)
    ensures CursorCount(opts, selected) == if 0 <= selected < |opts| then 1 else 0
  {
    if opts != [] {
      var n := |opts| - 1;
      OneCursor(opts[..n], selected);
      assert "    "[2] != "  > "[2];
      assert OptionLine(opts[n], n, selected)[..4] == "  > " <==> n == selected;
    }
  }

  class Select {
    var Options: seq<string>
    var Selected: int

    constructor (options: seq<string>)
      ensures Options == options && Selected == 0
    {
      Options := options;
      Selected := 0;
    }

    /** Select.Init (models/select.go:15-18). */
    method Init() returns (cmd: Option<Cmd>)
      modifies this
      ensures Selected == 0 && Options == old(Options) && cmd.None?
    {
      Selected := 0;
      return None;
    }

    /** Select.Update (models/select.go:20-35). */
    method Update(msg: Msg) returns (cmd: Option<Cmd>)
      modifies this
      ensures Selected == SelectStep(old(Selected), |Options|, msg)
      ensures Options == old(Options) && cmd.None?
    {
      match msg {
        case Key(key) =>
          if IsUp(key) {
            if Selected > 0 {
              Selected := Selected - 1;
            }
          } else if IsDown(key) {
            if Selected < |Options| - 1 {
              Selected := Selected + 1;
            }
          }
        case _ =>
      }
      return None;
    }

    /** Select.View (models/select.go:37-51). */
    method View() returns (out: string)
      ensures out == ViewText(Options, Selected)
      ensures |Options| == 0 ==> out == "(no adapters found)"
      ensures |Options| > 0 ==> out == Lines2(Options, Selected, 0)
    {
      if |Options| == 0 {
        return "(no adapters found)";
      }
      out := "";
      for i := 0 to |Options|
        invariant out == Lines(Options[..i], Selected)
      {
        assert Options[..i + 1][..i] == Options[..i];
        var cursor := "    ";
        if i == Selected {
          cursor := "  > ";
        }
        out := out + cursor + Options[i] + "\n";
      }
      assert Options[..|Options|] == Options;
      LinesSplit(Options, Selected, 0);
      assert Options[..0] == [];
    }
  }
}
