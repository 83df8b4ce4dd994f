# Verification of pygpgme's protocols and resource handling

pygpgme is a C extension that lets Python programs use GnuPG through libgpgme. Most of it passes
values from one side to the other. The parts modelled here are the ones that carry state from one
call to the next, and where a wrong order of steps would hang a program, corrupt memory, lose bytes
or send gpg the wrong answer.

- **Locks and thread states** (`Settings`, `Protocol`, `Deadlock`, `Linearizability`). Every blocking
  gpgme call gives up the GIL, takes the mutex of its context and leaves its thread state in the
  context, so that a callback can take the GIL back; getters and setters take the same mutex. This is a
  transition system over any number of threads and contexts, with a scheduler that may switch threads
  at every program point, running Python code included. `self->tstate` is read where the C code reads
  it, before the thread waits for the GIL, and a failed `assert`, or CPython entered without a thread state, is a state of its own
  (`crashed`). Proved: mutual exclusion and the asserts; that a callback makes the issuing thread
  current again; the exact condition under which all threads can still finish; that callbacks which
  call only into higher ranked contexts can never deadlock, while a call back into the same context
  always does; and that the settings of a context are linearizable at the moment the mutex is taken.
- **Errors** (`Errors`). libgpg-error words become `GpgmeError` exceptions, and exceptions raised in a
  callback become error words again.
- **Key editors** (`Editor`, `Grammar`, `Transcript`, `Callbacks`). `edit_trust` and `edit_sign` are
  generators that answer gpg's prompts. They are compared with a grammar of dialogues that knows
  nothing of program points, their transcript is read back, and a prompt outside the grammar is
  followed through the callback into the error word that gpgme gets.
- **Streams** (`Streams`). Python files behind gpgme data objects: what is copied, what is lost, when
  the callbacks act as an in-memory byte buffer may, and that what was written is read back.
- **Patterns and handles** (`Patterns`, `Handles`). C strings, pattern and key arrays and data handles
  in methods with many exits; every allocation may fail.
- **Wrappers and keys** (`Graph`, `Ownership`, `Programs`). Key, UserId, Subkey and KeySig objects with
  their parent references, over reference counted gpgme keys that are also held by the list of signers,
  used by Python programs that take and drop references in any order.

In the C parts a class holds the fields that the code updates, and its methods are proved against
functions and predicates on values, about which the lemmas speak. The locks are modelled on values
alone, because there the interleavings are the point.

## Results that correct an expectation

- A callback that raises `GpgmeError` with a nonzero code can still report success:
  `GpgmeError(0, 65536)` and `OSError(2**32)` become the error word 0. `Errors.ZeroIffHarmless` gives
  the exact condition, `Errors.NonzeroCodeCanVanish` the two inputs.
- An error word whose code field is zero, or that has bits outside its two fields, does not survive the
  way through Python and back, as `Errors.WordsThatChange` shows; every other nonzero word does
  (`Errors.RoundTrip`).
- `write_cb` does not look at how much the file accepted; `Streams.CallbackRefines` says exactly when
  that matters, `Streams.ShortWriteGoesUnnoticed` gives an input. Short reads do no harm.
- The comment on `set_errno` says that it clears the exception. When the exception's `errno` does not
  fit a C long, the OverflowError of the conversion stays set (`Streams.Errno.Set`), in `seek_cb` also
  when `tell` answers such a number (`Streams.SeekCb`). These are the only exceptions that a callback
  leaves set; the passphrase, progress and edit callbacks leave none, even if they find one.
- `parse_key_patterns` keeps one reference to the bytes object of every string that it has copied, on
  success and on failure; `Patterns.ParseKeyPatterns` counts them. All its C blocks are accounted for.
- A signing transcript does not always tell the answer about expiry that was asked for: it does if and
  only if the answer was no (`Transcript.ExpiryToldIff`), since a "Y" does not tell which question it
  answers. It tells the check level exactly when that was asked for (`Transcript.CheckToldIff`).
- The docstring of `edit_sign` lists a `command` argument that the function does not have; the model
  follows the code.

## Assumptions

- libgpg-error's layout: a 7-bit source at bit 24, a 16-bit code; `GPG_ERR_GENERAL` is 1, the default
  source of gpgme is `GPG_ERR_SOURCE_USER_1` (32), the code of an unknown errno is 16382, and system
  error codes have bit 15 set. `gpgme_error_t` and C's `int` have 32 bits, `long` has 64.
- gpgme's validities `UNDEFINED` to `ULTIMATE` are 1 to 5. gpgme.h is not part of this model.
- Between `begin_allow_threads` and `end_allow_threads` gpgme may make any number of the callbacks that
  are registered, on the calling thread, and then returns any error word. `gpgme_signers_add` succeeds.
- What a Python object, an allocation or gpgme answers is a parameter; allocation failures are
  arbitrary functions of the number of the attempt.
- Nobody changes a sequence of keys or patterns while a method reads it, and its items stay alive.

## Model

| member | source | states |
|---|---|---|
| `Protocol.Safety` | lib/pygpgme-context.c:23-92 | In every state of every run no `assert` has failed, each mutex and the GIL have one owner, no thread that holds the GIL waits for a mutex, and a saved thread state is that of the mutex holder, which is inside an operation on that context |
| `Protocol.RestoresIssuer` | lib/pygpgme-context.c:34-41 | Whenever a callback is entered or an operation ended, the thread made current is the thread that issued the operation, whatever ran in between |
| `Protocol.StepInv` | lib/pygpgme-context.c:23-55 | The invariant behind both is kept by every step of every thread |
| `Protocol.OtherOk` | lib/pygpgme-context.c:28-31 | A step of one thread leaves another's program point, suspended operations, mutexes and saved thread states in order |
| `Protocol.EnterOk` | lib/pygpgme-context.c:67-70 | Entering a callback finds a saved thread state and suspends the operation under those the thread is already in |
| `Protocol.LeaveOk` | lib/pygpgme-context.c:73-77 | Leaving a callback takes up the innermost suspended operation and saves the right thread state |
| `Deadlock.FinishIffNoDeadlock` | lib/pygpgme-context.c:23-55 | In every reachable state all threads can still finish if and only if no set of threads waits for mutexes held inside the set |
| `Deadlock.RankedNeverDeadlocks` | lib/pygpgme-context.c:23-55 | If callbacks only call into contexts ranked above every one whose operation they are called from, no reachable state is deadlocked, unfinished work has an enabled step, and all threads can finish |
| `Deadlock.NoStuckState` | lib/pygpgme-context.c:23-55 | Without a deadlock, finishing steps in any order stop only when every thread is done |
| `Deadlock.DeadlockIsForever` | lib/pygpgme-context.c:46-48 | No run ever moves a thread of a deadlocked set |
| `Deadlock.ReentrantCallHangs` | lib/pygpgme-context.c:43-92 | A callback that calls a getter, setter or operation of a context inside whose operation it runs never gets that call back, in any run |
| `Deadlock.CallbackCanReenter` | lib/pygpgme-context.c:57-77 | From every state with an operation in flight and the GIL free, a callback can lead into such a deadlock |
| `Deadlock.ReentrancyDeadlocks` | lib/pygpgme-context.c:43-92 | One thread and one context suffice to reach a deadlock from the start, after which nothing finishes |
| `Deadlock.FinishingMakesNoDeadlock` | lib/pygpgme-context.c:34-55 | Only a new call, a callback or a preemption can precede a new deadlock: finishing steps create none |
| `Deadlock.FinishingEnds` | lib/pygpgme-context.c:23-55 | From every reachable state, runs without a new call, callback or preemption are no longer than an explicit bound, in whatever order the threads move |
| `Deadlock.AllCanFinish` | lib/pygpgme-context.c:23-55 | From a state without a deadlock there is a run of finishing steps after which every thread is done |
| `Linearizability.Linearizable` | lib/pygpgme-context.c:194-225 | Every concurrent history of getters, setters and operations on a context is the sequential one in the order in which the mutex was taken, which respects the order of calls that do not overlap; with the mutex free, the settings are what that history leaves |
| `Linearizability.CallbacksConsistent` | lib/pygpgme-context.c:460-520 | With the mutex free or an operation running, a Python callback is stored exactly when its C trampoline is registered |
| `Linearizability.CallbackHasTarget` | lib/pygpgme-context.c:68-72 | While an operation runs, gpgme can make a passphrase or progress callback exactly when there is a Python object to call |
| `Linearizability.FailsIffRefused` | lib/pygpgme-context.c:164-380 | In every run, setting a scalar or reading the signers fails if and only if gpgme refused the value or a Key could not be made, and the four scalars whose gpgme setters return nothing are always set |
| `Linearizability.AnswersRecorded` | lib/pygpgme-context.c:536-550 | The answers that this is about are those that the environment gave, one for each statement |
| `Linearizability.ScalarsReadBack` | lib/pygpgme-context.c:194-225 | In a history, reading a scalar gives the value last set successfully, or the initial one, and operations run under it |
| `Linearizability.CallbacksReadBack` | lib/pygpgme-context.c:440-520 | In a history, reading a callback property gives the object last assigned to it, or None |
| `Linearizability.CompletesTo` | lib/pygpgme-context.c:34-55 | Every release of a mutex enters exactly the finished call with its answer in the history |
| `Linearizability.FrozenDuringOperation` | lib/pygpgme-context.c:23-41 | No step of any thread changes the settings of a context inside whose operation a thread is |
| `Linearizability.SignersReadBack` | lib/pygpgme-context.c:527-598 | In a history, reading `signers` gives the keys of the last assignment in order with multiplicity, or those before its first item that is not a key |
| `Linearizability.AnswerIsSequential` | lib/pygpgme-context.c:440-520 | At each release of a mutex, the answer and the settings are those of a lone execution after the calls before it |
| `Settings.BodyStepProgress` | lib/pygpgme-context.c:460-598 | Each separate write of a locked body keeps it on the way to its one-step meaning, whatever the environment answers |
| `Settings.AnswersFitStep` | lib/pygpgme-context.c:536-550 | Each statement goes on if the environment agrees and ends in failure if it refuses |
| `Settings.AfterKeepsConsistent` | lib/pygpgme-context.c:460-520 | Each request run alone keeps callback fields and registered trampolines in agreement |
| `Errors.Interp.ErrorObject` | lib/pygpgme-error.c:22-57 | The exception for an error word, None for zero, and a pending exception exactly when it cannot be made |
| `Errors.ErrorExcCarries` | lib/pygpgme-error.c:31-50 | That exception carries the word's source, its code and the text |
| `Errors.Interp.CheckError` | lib/pygpgme-error.c:61-76 | Zero raises nothing; any other word raises its exception and answers -1 |
| `Errors.Interp.CheckPyError` | lib/pygpgme-error.c:78-122 | The word of the pending exception, 0 without one, and nothing pending afterwards: by its two fields, the two numbers of a GpgmeError, the table's code for an OSError, and gpgme's own source with the code GENERAL for everything else |
| `Errors.WordIsReported` | lib/pygpgme-error.c:85-121 | The same for the conversion alone, for every exception |
| `Errors.FieldsOf` | lib/pygpgme-error.c:31-34 | Where source and code lie in an error word |
| `Errors.RoundTrip` | lib/pygpgme-error.c:22-122 | An error word raised and converted back is the same word if and only if its code is nonzero and it has no bits outside its fields, for any enumerations, since a value without a member stays an integer |
| `Errors.WordsThatChange` | lib/pygpgme-error.c:22-122 | Two words that do not survive: a source without a code, and a word with bit 31 |
| `Errors.ZeroIffHarmless` | lib/pygpgme-error.c:85-121 | A raised exception is reported as success if and only if it is an OSError whose errno is zero as a C int, or a GpgmeError whose code is zero as a C int or has, like its source, no nonzero bit that reaches the word |
| `Errors.NonzeroCodeCanVanish` | lib/pygpgme-error.c:101-112 | Two exceptions with nonzero numbers that are reported as success |
| `Editor.Generator.Next` | src/gpgme/editutil.py:87-143 | Starting a generator raises exactly when an argument is out of range |
| `Editor.Generator.SendTrust` | src/gpgme/editutil.py:97-112 | Each resumption of `edit_trust` moves, replies and fails as its table of program points says |
| `Editor.Generator.SendSign` | src/gpgme/editutil.py:143-166 | The same for `edit_sign` with its loop over the questions |
| `Editor.KeyEditor.EditCallback` | src/gpgme/editutil.py:56-76 | An event's effect on generator and output and the exception it raises: none for a filtered status, exhaustion as `GpgmeError` |
| `Editor.Open` | src/gpgme/editutil.py:48-54 | An editing session starts exactly for arguments in range, with nothing written |
| `Grammar.AcceptsExactly` | src/gpgme/editutil.py:97-166 | The events accepted are exactly those whose prompts begin a dialogue of the grammar, and the editor is at its end exactly on a whole dialogue |
| `Grammar.DialogueWords` | src/gpgme/editutil.py:97-166 | The grammar in the words that gpg sends |
| `Grammar.TwelveFiltered` | src/gpgme/editutil.py:57-69 | Exactly the twelve statuses that the wrapper names are filtered |
| `Grammar.FailsExactly` | src/gpgme/editutil.py:56-76 | An event raises if and only if it is unfiltered and its prompt leaves the grammar, now or earlier, and an event that raises writes nothing |
| `Grammar.StutterInvariance` | src/gpgme/editutil.py:57-69 | Inserting or deleting a filtered event anywhere changes neither what is written nor the outcome |
| `Grammar.OnlyPromptsMatter` | src/gpgme/editutil.py:70-76 | A session is a function of the prompts of its unfiltered events |
| `Grammar.NothingAfterFailure` | src/gpgme/editutil.py:70-73 | Once an event has failed, no later events write anything or succeed |
| `Grammar.RestStep` | src/gpgme/editutil.py:97-166 | At every program point a prompt is accepted exactly when some dialogue continues with it |
| `Transcript.OneLinePerPrompt` | src/gpgme/editutil.py:75-76 | Without a failure the output splits into exactly one line for each unfiltered event, which answers its prompt |
| `Transcript.CommandLine` | src/gpgme/editutil.py:135-149 | The second line of a signing session is "sign", "lsign", "nrsign" or "nrlsign", as the two flags say |
| `Transcript.SignText` | src/gpgme/editutil.py:145-166 | Every other line of a signing session, as an answer to gpg's own words |
| `Transcript.TrustText` | src/gpgme/editutil.py:99-112 | Every line of a session for ownertrust |
| `Transcript.TranscriptDetermines` | src/gpgme/editutil.py:90-166 | A completed transcript determines the kind of edit and the trust, or the user ID and the two flags, whatever gpg asked; the check level if it was asked for; and the expiry if it was asked for in both sessions or denied |
| `Transcript.ExpiryToldIff` | src/gpgme/editutil.py:151-159 | All completed sessions with the same output agree on the expiry if and only if it was asked for and denied |
| `Transcript.CheckToldIff` | src/gpgme/editutil.py:156-157 | All completed sessions with the same output agree on the check level if and only if it was asked for |
| `Transcript.DecimalReadsBack` | src/gpgme/editutil.py:103 | Decimal printing of a number that is not negative can be read back |
| `Transcript.CommandInjective` | src/gpgme/editutil.py:135-139 | The signing command determines both flags |
| `Transcript.SplitJoin` | src/gpgme/editutil.py:75-76 | Lines without newlines are recovered from the joined output |
| `Callbacks.EditCb` | lib/pygpgme-context.c:1898-1917 | The edit callback does to the session what its event does, returns its error word, leaves no exception pending and the same thread state saved; entered with an exception left behind, it returns the word of the exception that CPython then sets |
| `Callbacks.PassphraseCb` | lib/pygpgme-context.c:57-77 | The passphrase callback returns the word of the exception that is set after the call, and leaves none pending and the same thread state saved, also when entered with one |
| `Callbacks.ProgressCb` | lib/pygpgme-context.c:79-92 | The progress callback drops whatever exception is set and leaves the same thread state saved |
| `Callbacks.ReportedWord` | lib/pygpgme-error.c:90-107 | Which error that is: source gpgme for an assertion, source UNKNOWN once the dialogue is complete or has failed, code GENERAL in both cases |
| `Callbacks.LeavingGrammarIsReported` | lib/pygpgme-context.c:1898-1917 | After any events gpgme gets a nonzero error for an event exactly when its prompt leaves the grammar, whichever kind of failure is behind it |
| `Streams.Errno.Set` | lib/pygpgme-data.c:33-56 | The errno of the exception as a C int, EINVAL without one, and exactly when another exception stays set |
| `Streams.ErrnoArrives` | lib/pygpgme-data.c:40-52 | An errno that is a C int arrives unchanged, everything else as 22, and only a number beyond a C long leaves an exception |
| `Streams.ReadCb` | lib/pygpgme-data.c:58-90 | The part of the chunk that fits arrives in the buffer, nothing else changes; errors are -1 with an errno; and the exception that is set afterwards |
| `Streams.WriteCb` | lib/pygpgme-data.c:92-118 | All bytes are reported as written unless an exception was raised; and the exception that is set afterwards |
| `Streams.SeekCb` | lib/pygpgme-data.c:120-154 | The position that `tell` answers, or -1 with an errno, or -1 with an OverflowError set when the position does not fit; and the exception that is set afterwards |
| `Streams.LosslessIff` | lib/pygpgme-data.c:82-85 | Bytes are lost between file and gpgme if and only if some chunk is longer than what the other side takes |
| `Streams.Serve` | lib/pygpgme-data.c:58-154 | The callbacks, on a file that may move fewer bytes than asked for, perform the operation that the next rows are about, and the exception that a seek leaves |
| `Streams.CallbackRefines` | lib/pygpgme-data.c:92-154 | One operation is one that a byte buffer may do, in effect and result, if and only if a write is accepted whole and a seek stays in range |
| `Streams.ShortWriteGoesUnnoticed` | lib/pygpgme-data.c:107-112 | A file that keeps one byte of two, while gpgme is told that both are written |
| `Streams.RefinesBuffer` | lib/pygpgme-data.c:58-154 | So is every mix of such operations, with reads as short as the file likes |
| `Streams.ChunkingInvariance` | lib/pygpgme-data.c:81-89 | For any schedule of buffer sizes and short reads gpgme receives a prefix of the stream, and all of it once a read of positive size comes back empty |
| `Streams.WriteThenRead` | lib/pygpgme-data.c:58-154 | What gpgme writes in chunks it reads back after a seek in any other chunks, followed by what was there behind it |
| `Patterns.ParseKeyPatterns` | lib/pygpgme-context.c:1610-1690 | Success exactly when every item is a bytes object or a text that can be encoded, and no allocation fails; then gpgme reads the items' own bytes up to their NULs, in order, from an array of its own, otherwise the heap as before; and the exact number of bytes references kept |
| `Patterns.FillSlots` | lib/pygpgme-context.c:1656-1688 | The loop fills all slots or its cleanup frees exactly the filled ones and the array |
| `Patterns.CHeap.FreeKeyPatterns` | lib/pygpgme-context.c:1598-1606 | Frees the array and each string before its first NULL once |
| `Patterns.HoldsReads` | lib/pygpgme-context.c:1673-1678 | Reading a parsed array as gpgme does yields the wanted strings |
| `Patterns.PartialFreeable` | lib/pygpgme-context.c:1651-1688 | Because calloc fills with NULL, an array with any number of filled slots is fit for the cleanup |
| `Patterns.PartialNext` | lib/pygpgme-context.c:1673 | Filling the next slot keeps the array in that form |
| `Handles.Gpgme.DataNew` | lib/pygpgme-data.c:175-208 | A handle owns a reference to its file and its context; None and failures change nothing |
| `Handles.OpenedTakes` | lib/pygpgme-data.c:203-206 | A new handle adds one to the count of its file and one to that of its context, even if they are one object |
| `Handles.Gpgme.Release` | lib/pygpgme-data.c:157-165 | Releasing a handle gives both references back, with the thread state held |
| `Handles.Gpgme.Encrypt` | lib/pygpgme-context.c:943-1003 | On every exit handles, reference counts and arrays are as before; gpgme is called once, with the keys in order up to a NULL and with the handles that this call made for the files, all live during the operation like the key array, or not at all |
| `Handles.Gpgme.EncryptSign` | lib/pygpgme-context.c:1029-1130 | The same, with recipients that must be a sequence |
| `Handles.Gpgme.ExportKeys` | lib/pygpgme-context.c:1735-1783 | The same, with the NULL that the zeroed array has already |
| `Handles.Gpgme.Verify` | lib/pygpgme-context.c:1430-1492 | The same for three handles, whichever of them fails: they are live during the operation, and nothing is left |
| `Handles.Gpgme.Sign` | lib/pygpgme-context.c:1329-1405 | The same for two handles |
| `Handles.Gpgme.Genkey` | lib/pygpgme-context.c:1819-1867 | The same for two handles released in the opposite order |
| `Handles.Gpgme.Export` | lib/pygpgme-context.c:1696-1728 | The pattern array is freed once and the handle released on every exit, after the operation; gpgme reads exactly the wanted patterns from a live array |
| `Handles.Gpgme.Keylist` | lib/pygpgme-context.c:2009-2034 | The pattern array is freed once on every exit, and gpgme reads exactly the wanted patterns from a live array |
| `Handles.CloseThree` | lib/pygpgme-context.c:1460-1462 | Three handles released in the order in which they were made restore all reference counts, even for the same file three times |
| `Handles.ReadsAll` | lib/pygpgme-context.c:965-975 | A filled array reads back as exactly the keys, in order |
| `Graph.ViewsAreSafe` | lib/pygpgme-key.c:395-420 | Every live object, however deep a view, lies in a gpgme key with a positive count |
| `Graph.LiveIffHeld` | lib/pygpgme-key.c:23-30 | An object is live if and only if a reference of the program keeps it alive, directly or through its views |
| `Graph.RootsDetermineHeap` | lib/pygpgme-key.c:326-333 | The references of the program determine the set of live objects and all their counts |
| `Graph.NothingLeaks` | lib/pygpgme-key.c:454-460 | Once the program holds nothing, no object is left and the key counts are the signers' and everyone else's shares |
| `Graph.LoseLastRef` | lib/pygpgme-key.c:171-178 | Deallocating an object leaves nothing that refers to it, and exactly its parent with one reference to drop |
| `Graph.AccountedAdd` | lib/pygpgme-context.c:591 | A signer added to one context keeps the counts of all keys equal to wrappers, signers in all contexts and other shares |
| `Graph.NewViewOk` | lib/pygpgme-key.c:405-418 | Making a view, with its reference to the parent, keeps all counts right |
| `Ownership.Heap.Decref` | lib/pygpgme-key.c:454-460 | The cascade KeySig, UserId, Key ends, keeps every count right and changes nothing else about the objects that stay |
| `Ownership.Heap.KeyNew` | lib/pygpgme-key.c:757-769 | A new Key takes one reference to its gpgme key, and none if it cannot be made |
| `Ownership.Heap.Share` | lib/pygpgme-key.c:678 | Another reference to a live object raises its count and keeps every count right |
| `Programs.Execute` | lib/pygpgme-key.c:395-420 | The exact effect of each command on the program's references, the objects and the signers of every context, and that nothing changes when an object cannot be had |
| `Programs.RunProgram` | lib/pygpgme-key.c:395-460 | Any program, in any order of taking and dropping references, reading lists, fetching keys and assigning signers in any context, goes through a history: every state is sound, and each is the effect of a command on the one before |
| `Programs.HistoryAt` | lib/pygpgme-key.c:395-460 | What a history says of each of its states and commands |
| `Programs.InvariantsAreSound` | lib/pygpgme-key.c:454-460 | In a sound state every live object lies in a key with a positive count, exactly what the program keeps alive is live, key counts are wrappers, signers in all contexts and other shares, and a program that holds nothing leaves no object |
| `Programs.SignersRoundTrip` | lib/pygpgme-context.c:527-598 | Assigning Keys to the signers and reading them gives new Keys of exactly the same gpgme keys, in order with multiplicity |
| `Programs.SignersOfOthersStay` | lib/pygpgme-context.c:562-598 | In any program only an assignment to its own signers changes the signers of a context |
| `Ownership.Heap.GetUids` | lib/pygpgme-key.c:659-684 | New views of the key in order, exactly when all can be made; otherwise nothing has changed |
| `Ownership.Heap.GetSubkeys` | lib/pygpgme-key.c:627-652 | The same for subkeys |
| `Ownership.Heap.GetSignatures` | lib/pygpgme-key.c:395-420 | The same for the signatures of a user ID |
| `Ownership.Heap.GetKey` | lib/pygpgme-context.c:854-877 | The key received is wrapped, and its reference given up on every exit |
| `Ownership.Heap.KeyIterNext` | lib/pygpgme-keyiter.c:48-76 | The same for the next key of a listing, at its end, on errors and without a key |
| `Ownership.Heap.GetSigners` | lib/pygpgme-context.c:527-560 | New Keys for the signers in order; if one cannot be made in mid-loop, every count is as before |
| `Ownership.Heap.SetSigners` | lib/pygpgme-context.c:562-598 | The signers are the keys of the live Key objects before the first item that is not one; it succeeds exactly if all are; this is the assignment of `Settings.After`, and key counts stay equal to wrappers, signers and other shares |

## Left out

- libgpgme and gpg: cryptography, keyrings and engines are an environment that answers anything.
- KeyIter and the mutex: `lib/pygpgme-keyiter.c:28` and `:57` use the context without it, and
  `get_engine_info` reads it before locking; both are outside `Safety` and `Linearizable`. So is the end
  of a listing when a KeyIter dies, and the KeyIter object that `keylist` makes last.
- Operation results: `gpgme_op_*_result` is read after the mutex is released, so nothing is claimed about
  whose result a thread reads; copying results into Python objects is plain field copying.
- Finalizers: Python code that runs from `Py_CLEAR` under a context mutex and uses the same context.
- Builds of CPython without the GIL, sub-interpreters, and setting up and clearing the module.
- Argument parsing, codecs, enumeration and constant tables, docstrings, scalar getters of results.
- Setters refuse a deletion or a value of the wrong type before they lock; such calls never reach the
  context, so the protocol does not have them.
- sig_notations, engine information and locale: locked bodies of the same shape as those of the signers.
- decrypt, decrypt_verify, import, edit and card_edit: their exits are those of `Sign`, or of one handle.
- The exception reference that `pygpgme_check_error` keeps, and those of `PySequence_Fast` and of item
  lists; a list that cannot be created or appended to; `malloc` of a key array, which is not checked.
- Short or failing writes of `os.write`, Python run without asserts, and `gen.close()` after the session.
- Creating and destroying contexts: the number of contexts is fixed, and none gives up its signers by dying.
- Callbacks.EditCb: what a Python call does that starts with an exception set is a parameter, because
  CPython does not define it; a status object that cannot be made is not modelled.
- Protocol.Safety: modelled as a transition system on values, not as a class, so that the scheduler can
  interleave at every program point; the classes in `Callbacks` repeat only the hand-over of one callback.
- Patterns.ParseOne: leaves out the bytes reference that is taken before `calloc` and dropped when it fails.
- Handles.Gpgme.Verify: the early returns of `verify`, `sign` and `genkey` are merged into one that also
  releases the handles not made, which are NULL and which gpgme ignores.
