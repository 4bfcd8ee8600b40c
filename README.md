# media_mover argument resolver, modelled in Dafny

media_mover is a command-line tool that copies a music library and its
playlists to a destination, transcoding where needed. Its entry point,
`parse_args`, resolves the process arguments in two phases:

1. A **standalone-command scan**. A fixed registry, `COMMAND_ARGUMENTS`,
   pairs literal tokens with zero-argument actions returning an `i32`. The
   shipped registry has one entry, `--list-codecs` → `list_codecs`, and that
   action returns 0. One iterator over `env::args()` is created, and every
   registry entry in turn searches it with `Iterator::any`. The first entry
   whose token is found runs its action, and the process exits with the
   returned status. Required flags such as `--source` need not be present.
2. The **structured parse** by clap. It runs only when the scan finds
   nothing.

The model is the single file `cli.dfy`, module `Cli`:

- `ArgsIter` is the argument iterator. Its list `items` is a `const`, so the
  scan cannot change what the structured parse later reads; `Next` and
  `Any` move only the cursor `pos`.
- `AnyFrom` and `ScanFrom`/`Scan` are the specification functions. They
  describe one `any` call on a cursor and the registry loop.
  `ScanCommands` runs the loop imperatively over the iterator and is proved
  equal to `Scan`. `ParseArgs` is `parse_args` with the shipped registry.
- An outcome is `Command(index, status)`: entry `index` ran and the process
  exits with `status`. Or it is `FallThrough`: control passes to the
  structured parse.

**The shared cursor.** A failed `any` exhausts the one iterator, so entries
after the first can never be found. For any registry, the scan fires entry 0
exactly when its token occurs, and otherwise falls through
(`OnlyFirstEntryCanFire`). An ideal dispatch table would instead act on the
first argument equal to any registered token; that reading is the reference
definition `FirstMatch`. It agrees with the code for the shipped one-entry registry
(`SingleEntryMatchesFirstMatch`). With two entries the two readings differ
(`SharedCursorHidesLaterEntry`). The model follows the code.

## Model

| member | source | states |
|---|---|---|
| `Cli.AnyFrom` | src/cli.rs:22 | one `any` search succeeds iff the token occurs at or after the cursor; it stops just past the first equal element, and a failed search leaves the cursor at the end |
| `Cli.ArgsIter.constructor` | src/cli.rs:16 | the iterator starts at element 0, the program name, over the unmodified argument list |
| `Cli.ArgsIter.Next` | src/cli.rs:22 | yields the element at the cursor and advances, or yields nothing once exhausted |
| `Cli.ArgsIter.Any` | src/cli.rs:22 | the call returns and leaves the cursor as `AnyFrom` says; the argument list itself is unchanged |
| `Cli.ScanFrom` | src/cli.rs:21-26 | from entry k with the cursor at c, a command fires iff entry k's token occurs at or after c; the command that fires is entry k, with its action's return value as status |
| `Cli.Scan` | src/cli.rs:16-26 | from a fresh iterator at element 0, a command fires iff the first entry's token occurs anywhere in the arguments, and it is that entry with its action's status |
| `Cli.ListCodecs` | src/cli.rs:79-82 | the `list_codecs` stub always returns status 0 |
| `Cli.ScanCommands` | src/cli.rs:15-28 | the loop over one shared iterator produces exactly the outcome `Scan` specifies, for any registry |
| `Cli.ParseArgs` | src/cli.rs:15-29 | with the shipped registry, the outcome is exit status 0 iff `--list-codecs` is among the arguments, and fall-through to the structured parse otherwise |
| `Cli.OnlyFirstEntryCanFire` | src/cli.rs:16-26 | for any registry, entry 0 fires iff its token occurs anywhere; otherwise the scan falls through, whatever later entries hold |
| `Cli.ExhaustedIteratorFallsThrough` | src/cli.rs:21-22 | once the shared iterator is exhausted, no remaining entry can match |
| `Cli.ListCodecsScan` | src/cli.rs:10-13 | `--list-codecs` anywhere gives `list_codecs`'s status 0; otherwise control falls through to the structured parse |
| `Cli.ListCodecsBeatsMissingDestination` | src/cli.rs:21-28 | `prog --list-codecs -s /x` exits with status 0 although `--destination` is missing |
| `Cli.ProgramNameIsScanned` | src/cli.rs:16 | element 0 is searched too: an argument list that is only `--list-codecs` runs the command |
| `Cli.OnlyExactTokenMatches` | src/cli.rs:22 | `--list-codecs=x`, a prefix and an extension of the token do not run the command |
| `Cli.FindEntry` | src/cli.rs:6-13 | reference reading only (the program never looks an entry up by token): the first registry entry whose token equals a given argument, or none |
| `Cli.FirstMatchFrom` | src/cli.rs:16-26 | reference reading only, compared with the scan of these lines: from position i, a command fires only for an entry whose token occurs at or after i, with that entry's status; it falls through iff no argument from i on equals any registered token |
| `Cli.FirstMatch` | src/cli.rs:16-26 | reference reading only, compared with the scan of these lines: the same over the whole argument list |
| `Cli.FirstMatchFromOneEntry` | src/cli.rs:10-13 | reference reading only, for a registry of one entry as shipped: the first-match reading fires iff the token occurs at or after the position |
| `Cli.SingleEntryMatchesFirstMatch` | src/cli.rs:10-26 | with a one-entry registry the shared-cursor scan equals the first-match reading |
| `Cli.SharedCursorHidesLaterEntry` | src/cli.rs:16-22 | with entries `--a`, `--b` and arguments `prog --b`, the scan falls through while the first-match reading would run `--b` |
| `Cli.DefaultRenameArgs` | src/cli.rs:67-76 | rename is off by default, the replacement is `_`, and the special set is exactly the eight characters `"*:<>?\|\` with no repeats, not containing the replacement |

## Left out

- The structured parse (`CommandLineArgs::parse()`, the `CoreArgs` fields and the clap attributes with their help and version text) is a foreign library; it appears only as the `FallThrough` outcome.
- `env::args()` is process input; it is the parameter `argv`.
- `env::args()` panics once the scan reaches a non-Unicode argument; `argv` holds Unicode strings only, so this panic is not modelled.
- `exit(ret)` ends the process; it is the returned `Command` outcome.
- The `println!` in `list_codecs` is console output; `ListCodecs` models only its return value 0.
- The copy, transcode, playlist and filename-sanitisation engine is not part of this model.
- `DefaultRenameArgs` states the declared defaults only; how clap applies them when flags are omitted belongs to the structured parse.
