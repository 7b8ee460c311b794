# nginx-reloader, modelled in Dafny

nginx-reloader watches a configuration directory for the atomic update of a
mounted config map. When one arrives, it finds the master nginx process and sends
it SIGHUP so that nginx reloads its configuration. This project models the
decision logic of `mian.go`, with the operating system and the watch library
replaced by plain inputs:

- `ProcessLocator` (`process_locator.dfy`) models `getMasterNginxPid`.
  - Its input is a snapshot of the process table. The enumeration may fail, and each record's name read and parent-pid read are `Result`s that may fail.
  - `GetMasterNginxPid` keeps the two loops of the source. The first fills a pid → parent-pid `map` with the nginx-named processes and returns early on any read error.
  - The second loop walks the map keys in an arbitrary order (`:|`), as Go's map iteration does. It stops at the first pid whose parent pid is 0.
  - The method is proved against `NginxTable`, a fold over the snapshot, and `IsMasterChoice`, which says which pids may be chosen. Lemmas state what the table holds and which error comes out.
- `Paths` (`paths.dfy`) models Go's `filepath.Base` for `/`-separated paths. The source calls it on the event path.
- `EventLoop` (`event_loop.dfy`) models `watchEvents`.
  - The two channels become one interleaved script of inputs: `Event(op, name, replies)`, `WatcherError`, `EventsClosed` and `ErrorsClosed`.
  - Each event carries the outcomes that the lookup and the signal would have if the event triggers a reload (`Replies`).
  - `WatchEvents` is the loop. It records every lookup call and every signal call with its pid, and it is proved equal to the specification function `Run`.
  - Lemmas about `Run` state when the loop stops, that errors do not stop it, that lookups and signals match the triggering events one for one, and that each signal goes to the pid its lookup returned.
- `Results` (`results.dfy`) holds `Option`, `Result` and `Error`, which model Go's `(value, error)` returns.

Behaviour worth knowing:

- The loop returns as soon as EITHER channel reports closed (`mian.go:89-90`, `106-107`), not only once both have closed.
- The parent pid is read only for processes named `nginx` (`mian.go:37-41`), so a parent-pid failure on any other process does not abort the lookup.
- When no master is found, the lookup succeeds with pid 0, and the loop still makes the signal call with pid 0 (`mian.go:45-53`, `100`). The model keeps this behaviour as written.

## Model

| member | source | states |
|---|---|---|
| `ProcessLocator.GetMasterNginxPid` | mian.go:26-54 | A failing enumeration gives that error and pid 0. A failing read gives the table's error and pid 0. Otherwise there is no error, and the pid is some nginx pid whose recorded parent pid is 0 if one exists, else 0. |
| `ProcessLocator.NginxTable` | mian.go:31-44 | Defines the first loop as a fold over the snapshot: each record's name read, then for nginx-named records the parent-pid read, stored under the pid; the first failing read ends it with that error. |
| `ProcessLocator.IsMasterChoice` | mian.go:45-53 | Defines what the second loop may return over the table, since map order is unspecified: any pid whose parent pid is 0 when one exists, else 0. |
| `ProcessLocator.NginxTableFailureSticks` | mian.go:32-41 | Once a read in a prefix of the snapshot fails, the whole lookup fails with that same error. No later record is consulted. |
| `ProcessLocator.NginxTableFailsAtFirstReadFailure` | mian.go:31-44 | Building the table fails exactly when some read fails: a name read, or the parent-pid read of an nginx-named process. The error is then that of the FIRST failing read, and there is no partial result. |
| `ProcessLocator.NginxTableContents` | mian.go:31-44 | On success, every nginx-named record's pid is a key. Each key maps to the parent pid of the LAST nginx-named record carrying that pid. Every key comes from such a record. |
| `ProcessLocator.PpidReadOnlyForNginx` | mian.go:37-41 | Parent pids of processes not named nginx are never read. Two snapshots that differ only in those parent pids give the same table or the same error. |
| `ProcessLocator.MasterIsParentlessNginx` | mian.go:45-53 | Stated over the records: if some last-seen nginx record has parent pid 0, the chosen pid belongs to such a record. If none has, the chosen pid is 0. |
| `ProcessLocator.SoleMasterIsChosen` | mian.go:45-51 | When exactly one nginx pid has parent pid 0, that pid is the one chosen, whatever the iteration order. |
| `ProcessLocator.FindMasterAmongWorkers` | mian.go:26-54 | Snapshot: master 10 (parent 0), worker 11 (parent 10), and a non-nginx process whose parent-pid read fails. The lookup succeeds and returns 10. |
| `Paths.Base` | mian.go:93 | Defines Go's `filepath.Base` for '/'-separated paths: "." for the empty path, "/" for a path of slashes, otherwise the last element after trailing slashes are dropped. Its properties are in the next three rows. |
| `Paths.BaseIsOneElement` | mian.go:93 | `Base` of any path is non-empty. It contains '/' only when it is "/". |
| `Paths.BaseIsLastElement` | mian.go:93 | `Base(path)` equals a given element (non-empty, not ".", no '/') exactly when the path ends in that element. The element starts the path or follows a '/', and only slashes come after it. |
| `Paths.BaseIgnoresTrailingSlash` | mian.go:93 | Adding a trailing '/' to a non-empty path does not change its base. |
| `EventLoop.IsReloadTrigger` | mian.go:92-93 | Defines the trigger: the op has the Create bit and `Base` of the event path is `..data`. |
| `EventLoop.Reaction` | mian.go:93-102 | Defines the calls one event makes: a triggering event makes a lookup; a successful lookup is followed by a signal to its pid with the signal's outcome; a failed one by nothing. |
| `EventLoop.ReloadTriggerCharacterized` | mian.go:92-93 | An event triggers a reload exactly when its op has the Create bit and its path ends in `..data` (followed only by slashes). Bits other than Create never matter. |
| `EventLoop.MarkerEventsInDirectory` | mian.go:92-93 | In any directory, creating `..data` triggers a reload, also with other op bits or a trailing slash. Creating another name does not, and neither does only writing `..data`. |
| `EventLoop.WatchEvents` | mian.go:85-112 | The loop's calls, its final state and the number of inputs it consumed are exactly those of `Run` on the script. |
| `EventLoop.HandleEvent` | mian.go:92-102 | The calls one event makes are exactly `Reaction`'s: none unless it triggers, then a lookup, then a signal to the found pid only when the lookup succeeded. |
| `EventLoop.Run` | mian.go:86-111 | The loop never consumes more inputs than the script holds. |
| `EventLoop.LoopEndsExactlyAtClose` | mian.go:86-111 | The loop stops exactly when some input reports a closed channel, and it stops at the first such input. Without one it consumes the whole script and keeps running. |
| `EventLoop.RunWithoutCloseComposes` | mian.go:86-111 | Watcher errors, failed lookups and failed signals never end the loop. After inputs without a closing, the loop goes on over the rest exactly as if it had started there. |
| `EventLoop.LookupsMatchTriggers` | mian.go:92-102 | No coalescing: the number of lookups equals the number of triggering events consumed. The number of signals equals the number of those events whose lookup succeeded. |
| `EventLoop.SignalsFollowSuccessfulLookups` | mian.go:95-102 | Each signal comes right after a successful lookup and goes to the pid it returned, 0 included. Each successful lookup is followed by that signal, and a failed lookup by none. |
| `EventLoop.FailedLookupThenReload` | mian.go:95-102 | A triggering event whose lookup fails, then one whose lookup succeeds, gives two lookups and one signal to the second pid. The loop then continues with the remaining inputs. |

## Left out

- Directory registration in `watchDir` (`mian.go:67-82`). It is a traversal driven by `filepath.Walk` and filesystem I/O. Its callback also calls `info.IsDir()` before looking at the walk error, so a walk error with no file info would crash; this is not modelled.
- Watcher creation, `watcher.Add` and `watcher.Close` (`mian.go:76`, `115-119`). These are fsnotify library calls.
- `signalNginxReload` (`mian.go:57-64`). `os.FindProcess` and `Signal(SIGHUP)` are operating-system calls. Their combined outcome is the `signal` field of each event's `Replies`.
- `proc.Processes()`, `Name()` and `Ppid()` (`mian.go:27`, `33`, `38`) are gopsutil calls. They become the snapshot given to `GetMasterNginxPid`.
- The lookup inside the loop is not `GetMasterNginxPid` itself. Its outcome is given with each event, so the loop model does not tie a lookup's pid to a process snapshot.
- The goroutine, the fairness of `select` between the two channels, and the blocking `<-done` (`mian.go:87`, `122`, `128`). These are concurrency. The loop reads one interleaved script instead, and a script that runs out leaves it Running.
- Logging and the environment-variable lookup of the watched path (`mian.go:22-23`, `123-126`). These are I/O.
- `filepath.Base` comes from Go's standard library. `Paths.Base` follows its behaviour for Unix paths, where there are no volume names.
- fsnotify defines `Op` as a uint32 with Create = 1 and Write = 2. `EventLoop.Op` is that mask.
- The signal to pid 0: Go's `Process.Signal` refuses a process with pid 0 ("os: process not initialized"), so on a host without a master the call at `mian.go:100` always fails. The model takes the signal's outcome as an input and does not force that failure.
