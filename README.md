# argv: command-line arguments by reference

A model of the Linux and macOS implementation of the `argv` crate, which hands
out a process's command-line arguments as `&'static OsStr` without copying them.

- **Capture.** An initializer registered with the loader runs before `main` and
  stores the `argc` and `argv` it receives into two statics, `ARGC` (initially 0)
  and `ARGV` (initially null). Modelled by the class `Unix.Statics` and its
  method `Capture`.
- **Platform iterator.** `iter()` reads the statics and builds a cursor
  `Iter { next: argv, end: argv + argc }`. `next` reports exhaustion when the
  cursor is at `end`. Otherwise it reads the C string in the cursor's slot and
  moves the cursor one slot on. `len` is the byte distance from cursor to end
  divided by the pointer width. `size_hint` gives `len` as both bounds.
  Modelled by the class `Unix.Iter` and the method `Unix.NewIter`.
- **Facade.** The public `argv::iter()` and `argv::Iter` forward every call to
  the platform iterator (`Argv.Iter`, `Argv.NewIter`).

Memory is modelled by values. A pointer to the argument table is
`ArgvPtr = Null | Table(address, slots)`, where `slots` are the C strings the
table's pointers point to. The iterator keeps its cursor and end as slot
indices. `Len` computes the addresses `base + index * 8` and divides their
distance by 8, as the source does, and proves the result equals the number of
arguments left. Arguments are opaque byte strings (`seq<byte>`).
`CStr.ToBytes` is `CStr::from_ptr(p).to_bytes()`: the bytes before the first NUL.

`NewIter` requires `Unix.WellFormed(argc, argv)` of the statics it reads.
The predicate says that this pair is consistent: either the initial
`(0, null)`, or a table supplied by the loader, never half-written. In the
second case `argc >= 0`, `argc` is no larger than the table, the first
`argc` slots are NUL-terminated, and `argv + argc` does not overflow. The
predicate does not say that capture ran, or that it ran once. The order of
`capture` and `iter` is not modelled. The table lives as long as the process
because it is a value inside `ArgvPtr`.

The module `Usage` holds clients that state what a caller sees:
- draining an iterator yields the arguments in table order;
- two iterators yield the same arguments;
- before capture, the iterator is empty;
- the `print a b c` run of `tests/test.rs` prints the program path, then `a`, `b`, `c`.

## Model

| member | source | states |
|---|---|---|
| `CStr.ToBytes` | src/lib.rs:110-112 | the argument is a prefix of the slot's memory, contains no NUL, and is followed by a NUL |
| `CStr.ToBytesUnique` | src/lib.rs:110-112 | any NUL-free prefix followed by a NUL is exactly what `ToBytes` returns, so the result is determined |
| `CStr.ToBytesOfTerminated` | src/lib.rs:110-112 | reading back a NUL-free string written with its terminator gives the string again, whatever follows it |
| `Pointers.Offset` | src/lib.rs:92 | `p.offset(n)` moves forward by a whole number of pointer slots |
| `Pointers.SlotDistance` | src/lib.rs:124 | `(end - next) / size_of` is floor division: the whole number of slots that fit in the byte distance |
| `Pointers.SlotDistanceOfOffsets` | src/lib.rs:124 | byte distance divided by pointer width, between two offsets from one base, is the difference of their slot counts |
| `Unix.ArgStrings` | src/lib.rs:109-112 | each table slot, read in order, gives one NUL-free argument: the i-th result is `ToBytes` of the i-th slot |
| `Unix.ArgStringsOfLoaderTable` | src/lib.rs:109-112 | reading a table of NUL-terminated copies of NUL-free arguments gives those arguments back, in order |
| `Unix.CapturedArgs` | src/lib.rs:84-95 | a captured `(argc, argv)` stands for exactly `argc` arguments, the i-th being slot i read as a C string |
| `Unix.CapturedLoaderTable` | src/lib.rs:79-95 | a loader table captured with its count satisfies the capture precondition and stands for exactly its arguments |
| `Unix.Statics.constructor` | src/lib.rs:70-71 | `ARGC` starts at 0 and `ARGV` at null, a state that stands for no arguments |
| `Unix.Statics.Capture` | src/lib.rs:79-82 | after capture the statics hold exactly the given `argc` and `argv`; nothing else is written |
| `Unix.Iter.constructor` | src/lib.rs:94 | a new cursor starts at slot 0 with the given end, and satisfies the iterator invariant |
| `Unix.Iter.Len` | src/lib.rs:122-126 | `len` is `end - next` slots, which is the number of arguments still to come |
| `Unix.Iter.SizeHint` | src/lib.rs:116-119 | lower and upper bound are equal, and equal to `len` and to the number of arguments left |
| `Unix.Iter.Next` | src/lib.rs:105-114 | `None` exactly when the cursor is at `end`, and then nothing changes; otherwise the argument in the cursor's slot, NUL-free, with the cursor one slot on, `len` one less and the remaining arguments shortened by their head; the invariant is kept |
| `Unix.NewIter` | src/lib.rs:84-95 | reads the statics without writing them; the cursor starts at `argv`, `end` is `argv + argc`, `len` equals `argc`, and the arguments to come are the captured ones |
| `Argv.Iter.constructor` | src/lib.rs:34-36 | the public iterator wraps the given platform iterator |
| `Argv.Iter.Next` | src/lib.rs:47-49 | forwards to the platform `next`: the head of the remaining arguments, or `None` when none remain |
| `Argv.Iter.SizeHint` | src/lib.rs:51-53 | equals the platform `size_hint`: both bounds are the exact number of arguments left |
| `Argv.Iter.Len` | src/lib.rs:57-59 | equals the platform `len`: the number of arguments left |
| `Argv.NewIter` | src/lib.rs:33-37 | a fresh public iterator whose arguments to come are the captured ones and whose `len` is `argc` |
| `Usage.Drain` | src/lib.rs:14-17 | looping over an iterator until `next` gives `None` yields exactly the arguments it had left, in order, and leaves it empty |
| `Usage.IterTwice` | src/lib.rs:84-113 | two iterators taken one after the other yield identical sequences: `argc` NUL-free arguments, the i-th being table slot i |
| `Usage.NextBeforeCapture` | src/lib.rs:105-108 | with the initial statics, `len` is 0 and the first `next` returns `None` |
| `Usage.RunPrintExample` | tests/test.rs:6-19 | capturing the table for `print a b c` and draining `argv::iter()` gives the program path followed by `a`, `b`, `c` |

## Left out

- The fallback implementation for platforms other than Linux and macOS (src/lib.rs:129-162). It delegates to the standard library's `args_os` and leaks one box per argument; it holds no state of its own.
- Loader registration through `.init_array` and `__mod_init_func`. The loader guarantees that `capture` runs once, before `main`. The model does not capture the order of `capture` and `iter`: `NewIter` may read the initial `(0, null)`, and then it yields nothing. Nothing in the model prevents a second call to `Capture`. `Unix.WellFormed` only requires the pair that `iter` reads to be consistent. The table's lifetime follows from the table being a value.
- Raw pointers and `unsafe`: reads through pointers are indexing into sequences. The model returns each argument as a value, so it does not capture that the source hands out references into the loader's memory.
- Pointer width: the model uses 8-byte slots and a 64-bit `usize`, as on the 64-bit Linux and macOS targets; 32-bit Linux is not modelled.
- `OsStr` encoding: arguments are opaque byte strings.
- Process I/O of `tests/test.rs` (spawning `cargo run` and reading its output) and the build script `build.rs`. Only the expected output of the test is modelled, by `Usage.RunPrintExample`.
