/** Model of the argument resolver of media_mover (src/cli.rs).

    Before the structured (clap) parse runs, `parse_args` walks a fixed
    registry of standalone commands. All entries share ONE iterator over the
    process arguments, and each entry advances it with `Iterator::any`. The
    first entry whose token is found runs its action, and the process exits
    with that action's status. If no entry is found, control falls through
    to the structured parse, which is represented here only by the
    `FallThrough` outcome.
 */
module Cli {

  /** Rust's `i32`: the return type of a command and the status given to `exit`. */
  newtype int32 = x: int | -0x8000_0000 <= x < 0x8000_0000

  datatype Option<T> = None | Some(value: T)

  /** A registry entry: an argument that acts as a command on its own.
      `command` is the zero-argument action (a `dyn Fn() -> i32`). */
  datatype CommandArgument = CommandArgument(argument: string, command: () -> int32)

  /** Result of the standalone-command scan: either the action of registry
      entry `index` ran and the process exits with `status`, or nothing
      matched and the structured parse takes over. */
  datatype Outcome = Command(index: nat, status: int32) | FallThrough

  /** The `list_codecs` stub: its console output is not modelled; it
      always returns 0. */
  function ListCodecs(): (status: int32)
    ensures status == 0
  {
    0
  }

  /** The registry the program ships with: one entry. */
  const COMMAND_ARGUMENTS: seq<CommandArgument> :=
    [CommandArgument("--list-codecs", ListCodecs)]

  const LIST_CODECS_TOKEN: string := "--list-codecs"

  // ---------------------------------------------------------------------
  // Specification of the scan on a cursor into the argument list
  // ---------------------------------------------------------------------

  /** What one `Iterator::any` call observes and leaves behind. */
  datatype Step = Step(found: bool, cursor: nat)

  /** `args.any(|arg| arg == token)` on an iterator positioned at `from`:
      the search consumes elements up to and including the first one equal
      to `token`; a failed search consumes everything. */
  function AnyFrom(args: seq<string>, from: nat, token: string): (s: Step)
    requires from <= |args|
    ensures from <= s.cursor <= |args|
    ensures s.found <==> token in args[from..]
    ensures s.found ==> from < s.cursor && args[s.cursor - 1] == token
    ensures forall j :: from <= j < s.cursor - 1 ==> args[j] != token
    ensures !s.found ==> s.cursor == |args|
    decreases |args| - from
  {
    if from == |args| then Step(false, |args|)
    else if args[from] == token then Step(true, from + 1)
    else
      var s := AnyFrom(args, from + 1, token);
      assert args[from..] == [args[from]] + args[from + 1..];
      s
  }

  /** The `for carg in COMMAND_ARGUMENTS` loop from entry `k` on, with the
      shared iterator at `cursor`. Because a failed search leaves the
      cursor at the end, only entry `k` can still fire. */
  function ScanFrom(registry: seq<CommandArgument>, args: seq<string>, k: nat, cursor: nat): (r: Outcome)
    requires k <= |registry| && cursor <= |args|
    ensures r.Command? <==> k < |registry| && registry[k].argument in args[cursor..]
    ensures r.Command? ==> r.index == k && r.status == registry[k].command()
    decreases |registry| - k
  {
    if k == |registry| then FallThrough
    else
      var s := AnyFrom(args, cursor, registry[k].argument);
      if s.found then Command(k, registry[k].command())
      else ScanFrom(registry, args, k + 1, s.cursor)
  }

  /** The whole scan, starting with a fresh iterator at element 0 (the
      program name is not skipped). */
  function Scan(registry: seq<CommandArgument>, args: seq<string>): (r: Outcome)
    ensures r.Command? <==> |registry| > 0 && registry[0].argument in args
    ensures r.Command? ==> r.index == 0 && r.status == registry[0].command()
  {
    assert args[0..] == args;
    ScanFrom(registry, args, 0, 0)
  }

  // ---------------------------------------------------------------------
  // The argument iterator and the scan as the source runs it
  // ---------------------------------------------------------------------

  /** `env::args()`: an iterator over a fixed argument list. `items` never
      changes; iterating only moves `pos`. */
  class ArgsIter {
    const items: seq<string>
    var pos: nat

    ghost predicate Valid()
      reads this
    {
      pos <= |items|
    }

    constructor (argv: seq<string>)
      ensures Valid() && items == argv && pos == 0
    {
      items := argv;
      pos := 0;
    }

    /** `Iterator::next`: yields the next argument, or `None` once exhausted. */
    method Next() returns (r: Option<string>)
      requires Valid()
      modifies this
      ensures Valid()
      ensures old(pos) < |items| ==> r == Some(items[old(pos)]) && pos == old(pos) + 1
      ensures old(pos) == |items| ==> r == None && pos == old(pos)
    {
      if pos < |items| {
        r := Some(items[pos]);
        pos := pos + 1;
      } else {
        r := None;
      }
    }

    /** `Iterator::any` with the predicate `arg == token`: calls `next`
        until an equal element turns up or the iterator is exhausted. */
    method Any(token: string) returns (found: bool)
      requires Valid()
      modifies this
      ensures Valid()
      ensures found == AnyFrom(items, old(pos), token).found
      ensures pos == AnyFrom(items, old(pos), token).cursor
    {
      while true
        invariant Valid()
        invariant AnyFrom(items, pos, token) == AnyFrom(items, old(pos), token)
        decreases |items| - pos
      {
        var next := Next();
        match next
        case None =>
          return false;
        case Some(arg) =>
          if arg == token {
            return true;
          }
      }
    }
  }

  /** The scan loop of `parse_args` over an arbitrary registry: one iterator
      for all entries, the first entry found runs its action. */
  method ScanCommands(registry: seq<CommandArgument>, argv: seq<string>) returns (outcome: Outcome)
    ensures outcome == Scan(registry, argv)
  {
    var args := new ArgsIter(argv);
    for k := 0 to |registry|
      invariant args.Valid() && args.items == argv
      invariant ScanFrom(registry, argv, k, args.pos) == Scan(registry, argv)
    {
      var carg := registry[k];
      var hit := args.Any(carg.argument);
      if hit {
        var ret := carg.command();
        return Command(k, ret);
      }
    }
    return FallThrough;
  }

  /** `parse_args` up to the structured parse: with the shipped registry the
      process exits with status 0 exactly when `--list-codecs` is one of the
      arguments, program name included. */
  method ParseArgs(argv: seq<string>) returns (outcome: Outcome)
    ensures outcome == Scan(COMMAND_ARGUMENTS, argv)
    ensures outcome == if LIST_CODECS_TOKEN in argv then Command(0, 0) else FallThrough
  {
    outcome := ScanCommands(COMMAND_ARGUMENTS, argv);
    ListCodecsScan(argv);
  }

  // ---------------------------------------------------------------------
  // Properties of the scan
  // ---------------------------------------------------------------------

  /** A failed search exhausts the shared iterator, so no later entry can
      match: the outcome is decided by the first entry alone. */
  lemma OnlyFirstEntryCanFire(registry: seq<CommandArgument>, args: seq<string>)
    ensures Scan(registry, args) ==
      if |registry| > 0 && registry[0].argument in args
      then Command(0, registry[0].command())
      else FallThrough
  {
  }

  /** Once the iterator is exhausted nothing more is found, whatever entries remain. */
  lemma ExhaustedIteratorFallsThrough(registry: seq<CommandArgument>, args: seq<string>, k: nat)
    requires k <= |registry|
    ensures ScanFrom(registry, args, k, |args|) == FallThrough
  {
  }

  /** With the shipped registry: `--list-codecs` anywhere gives exit status
      0, and its absence falls through to the structured parse. */
  lemma ListCodecsScan(args: seq<string>)
    ensures Scan(COMMAND_ARGUMENTS, args) ==
      if LIST_CODECS_TOKEN in args then Command(0, 0) else FallThrough
  {
    OnlyFirstEntryCanFire(COMMAND_ARGUMENTS, args);
  }

  /** The scan takes precedence over validation: the command runs even
      though `--destination` is missing. */
  lemma ListCodecsBeatsMissingDestination()
    ensures Scan(COMMAND_ARGUMENTS, ["prog", "--list-codecs", "-s", "/x"]) == Command(0, 0)
  {
    ListCodecsScan(["prog", "--list-codecs", "-s", "/x"]);
  }

  /** Element 0, the program name, is searched like every other argument. */
  lemma ProgramNameIsScanned()
    ensures Scan(COMMAND_ARGUMENTS, ["--list-codecs"]) == Command(0, 0)
  {
    ListCodecsScan(["--list-codecs"]);
  }

  /** Only exact equality matches: a value form, a prefix or an extension
      of the token does not run the command. */
  lemma OnlyExactTokenMatches()
    ensures Scan(COMMAND_ARGUMENTS, ["prog", "--list-codecs=x", "--list-codec", "--list-codecsx"]) == FallThrough
  {
  }

  // ---------------------------------------------------------------------
  // A reference: the first argument equal to ANY registered token
  // ---------------------------------------------------------------------

  /** The first registry entry whose token is `token`. */
  function FindEntry(registry: seq<CommandArgument>, token: string, k: nat): (r: Option<nat>)
    requires k <= |registry|
    ensures r.Some? ==> k <= r.value < |registry| && registry[r.value].argument == token
    ensures r.Some? ==> forall j :: k <= j < r.value ==> registry[j].argument != token
    ensures r.None? ==> forall j :: k <= j < |registry| ==> registry[j].argument != token
    decreases |registry| - k
  {
    if k == |registry| then None
    else if registry[k].argument == token then Some(k)
    else FindEntry(registry, token, k + 1)
  }

  /** Scan the arguments left to right from `i` and dispatch on the first
      one that is a registered token: the scan as an ideal dispatch table
      would do it. */
  function FirstMatchFrom(registry: seq<CommandArgument>, args: seq<string>, i: nat): (r: Outcome)
    requires i <= |args|
    ensures r.Command? ==> r.index < |registry| && registry[r.index].argument in args[i..]
                           && r.status == registry[r.index].command()
    ensures r.FallThrough? <==>
      forall j, e :: i <= j < |args| && 0 <= e < |registry| ==> args[j] != registry[e].argument
    decreases |args| - i
  {
    if i == |args| then FallThrough
    else
      assert args[i..] == [args[i]] + args[i + 1..];
      match FindEntry(registry, args[i], 0)
      case Some(k) => Command(k, registry[k].command())
      case None => FirstMatchFrom(registry, args, i + 1)
  }

  /** The first-match reading over the whole argument list. */
  function FirstMatch(registry: seq<CommandArgument>, args: seq<string>): (r: Outcome)
    ensures r.Command? ==> r.index < |registry| && registry[r.index].argument in args
                           && r.status == registry[r.index].command()
    ensures r.FallThrough? <==>
      forall j, e :: 0 <= j < |args| && 0 <= e < |registry| ==> args[j] != registry[e].argument
  {
    assert args[0..] == args;
    FirstMatchFrom(registry, args, 0)
  }

  lemma {:induction false} FirstMatchFromOneEntry(entry: CommandArgument, args: seq<string>, i: nat)
    requires i <= |args|
    ensures FirstMatchFrom([entry], args, i) ==
      if entry.argument in args[i..] then Command(0, entry.command()) else FallThrough
    decreases |args| - i
  {
    if i < |args| {
      assert args[i..] == [args[i]] + args[i + 1..];
      if args[i] != entry.argument {
        FirstMatchFromOneEntry(entry, args, i + 1);
      }
    }
  }

  /** With a one-entry registry, as shipped, the shared cursor makes no
      difference: the scan is the ideal first-match dispatch. */
  lemma SingleEntryMatchesFirstMatch(entry: CommandArgument, args: seq<string>)
    ensures Scan([entry], args) == FirstMatch([entry], args)
  {
    FirstMatchFromOneEntry(entry, args, 0);
    OnlyFirstEntryCanFire([entry], args);
    assert args[0..] == args;
  }

  /** With two entries they differ: the second token is present, but the
      failed search for the first one has already exhausted the iterator. */
  lemma SharedCursorHidesLaterEntry()
    ensures var registry := [CommandArgument("--a", () => 1), CommandArgument("--b", () => 2)];
            Scan(registry, ["prog", "--b"]) == FallThrough
            && FirstMatch(registry, ["prog", "--b"]) == Command(1, 2)
  {
    var registry := [CommandArgument("--a", () => 1), CommandArgument("--b", () => 2)];
    var args := ["prog", "--b"];
    OnlyFirstEntryCanFire(registry, args);
    assert args[0] != "--a" by { assert |args[0]| != |"--a"|; }
    assert args[1] != "--a" by { assert args[1][2] != "--a"[2]; }
    assert FindEntry(registry, args[0], 0) == None by {
      assert args[0] != "--b" by { assert |args[0]| != |"--b"|; }
    }
    assert FindEntry(registry, args[1], 0) == Some(1);
  }

  // ---------------------------------------------------------------------
  // Rename options
  // ---------------------------------------------------------------------

  /** The rename option group of the structured parse. */
  datatype RenameArgs = RenameArgs(renameSpecial: bool, replacementChar: char, specialCharacters: string)

  /** The values the structured parse gives the rename options when none
      is supplied on the command line. */
  function DefaultRenameArgs(): (r: RenameArgs)
    ensures !r.renameSpecial
    ensures r.replacementChar == '_'
    ensures r.replacementChar !in r.specialCharacters
    ensures forall c :: c in r.specialCharacters <==> c in {'"', '*', ':', '<', '>', '?', '|', '\\'}
    ensures |r.specialCharacters| == 8
  {
    RenameArgs(false, '_', "\"*:<>?|\\")
  }
}
