# A model of goclilogin, and what is proved of it

goclilogin logs a command-line tool in, keeps its token, and refreshes it from any
number of processes at once. This project models that behaviour in Dafny and proves
what the package promises of it. `dafny verify dfyconfig.toml` checks everything.

## What is modelled

**The refresh protocol** (`Provider`, `Protocol`, `Safety`, `RefreshRate`, `ExactlyOne`,
`Progress`, `Hazards`, `Calls`). `Protocol` is a transition system. Its state is the provider's
grant, one stored token, one refresh lock, the clock, any number of processes with their
in-memory token and mutex, and any number of goroutines with a program counter inside
`lockingTokenSource.Token`. Each line of `Token` that touches shared state is a step of
its own, and failures, crashes, reopened sources and the clock are steps as well. A run
is any sequence of enabled steps. `Safety` names the runs the code covers: the lock is
obtained, `Load` under it succeeds, `Save` takes, and no response is lost and no process
dies between the provider's rotation and `Save`. `Hazards` shows that dropping any one of
these hypotheses loses the grant. `Calls` says, for every run and whatever fails in it, what
the outcome of a call stands for.

**The lock over real time** (`Lock`, `TimedLock`, `TimedProtocol`). The polling loop itself,
N processes contending with it, and the protocol run on their schedule, where obtaining the
lock is no longer a hypothesis but follows from how long it is held.

**A logout among running processes** (`Logout`). `TokenStore.Delete` takes no lock, so it is
an event between any two steps of the protocol.

**The token store** (`Tokens`, `Keyring`, `FileStore`, `TokenStore`, `StoreRefinement`,
`AtomicFile`). The keyring is preferred, the file is the fallback, and an attribution rule
decides whether falling back is allowed. The keyring's availability is an environment
event, and its three requests fail each on its own. `AtomicFile` takes `fileStore.write`
apart into its system calls.

**Both together** (`Composition`, `TokenSource`). `Composition` replaces the protocol's
stored token by the two backends, read and written one at a time, and simulates it by
the protocol. `TokenSource` is the object itself: its `Token` runs over the real store and
provider. Its contract says what a call returns in terms of the tokens, the grant and the
store it found, and that what it did is a path of the protocol's steps.

**The deployment** (`Toml`, `TomlText`, `Spelling`, `Merge`, `TokenCommand`, `ApiUrl`,
`ConfigFile`, `Deployment`, `Choices`, `SaveAndLoad`). A text-level TOML subset and how a
document in it is written, what `Save` adds to a config file, how a config file reads in each
order a decoder may take its keys, which URLs are APIs, and how a deployment is loaded,
resolved for a login, and saved. `Choices` gives every field of the result, and the reason for
every refusal, from the inputs alone.

**Two pieces of timed arithmetic** (`DevicePoll`, `CommandToken`). The device-grant poll
behind the rewriting transport, and the reuse window of a token a command hands over, with
the 64-bit duration it is computed in.

What fails of the code is stated beside what holds, with the exact condition and a run
or an input that shows it:

- A token read back in memory equals the one saved exactly if an id token is all it carried
  beside its fields (`Tokens.InMemoryFormRoundTripsIff`).
- `Save` followed by `Load` gives the token saved exactly where a keyring that took it
  answers reads, and one that refused it gives no older entry (`TokenStore.SaveThenLoad`). It
  fails with a keyring that only reads (`StoreRefinement.ReadOnlyKeyringHidesTheSave`) and
  with one that only writes (`StoreRefinement.WriteOnlyKeyringHidesTheSave`).
- The two-tier store is one map over every placing of operations exactly in the histories in
  which the keyring takes nothing until it answers everything, and from then on never stops
  (`StoreRefinement.OneMapExactlyWhen`). `StoreRefinement.DyingKeyringResurfacesStale` is a
  run in which it stops.
- `Delete` forgets a token for good exactly where the keyring answered it or held nothing, and
  the file works or held nothing (`TokenStore.DeleteForgets`). Elsewhere it can report success
  for one copy while the other comes back (`StoreRefinement.DeletedTokenComesBack`), or say
  that nobody was logged in while a locked Mac keychain keeps the token
  (`StoreRefinement.LockedDeleteKeepsTheToken`).
- `Save` of a deployment keeps a config file readable exactly where it defined none of the
  names added and does not start with a byte order mark (`Merge.MergeKeepsMeaning`). The
  decoder binds a key to a field in any mixture of cases, in the order of a Go map, and
  `readConfigFile` looks for empty values under the exact key alone. So the login round trip
  holds exactly where the issuer is not empty, `Save` can write what it has to and not to a
  file with a mark, and every spelling of a login key in the file says what the login settled
  on (`SaveAndLoad.LoginRoundTrip`). `SaveAndLoad.EmptyIssuerIsLost`,
  `SaveAndLoad.MarkedFileIsSpoiled` and `SaveAndLoad.OtherCaseIsRefused` are the inputs.
- A logout holds exactly where no running process can put a token back
  (`Logout.LogoutHoldsExactlyWhen`), which any with an expiring token can
  (`Logout.RunningProcessUndoesIt`).
- A command-handed token's expiry is the promised one exactly up to 9223372036 seconds, and
  one second more makes it unusable at once (`CommandToken.ExpiryExactlyWhen`,
  `CommandToken.OneSecondTooMany`).
- An argv survives being joined by NULs exactly when it holds none and is not one empty word
  (`TokenCommand.ArgvRoundTrip`), which another spelling of `token_command` can set
  (`SaveAndLoad.EmptyProgramPasses`).
- The poll's rewriting reads a redirect's body before the client follows it, and so can end or
  slow a poll the answer behind it would have approved (`DevicePoll.ContinuesExactly`).

The documentation says a token with `expires_in` is reused until that runs out
(commandtoken.go:28-29). The code stops ten seconds earlier, x/oauth2's margin, and the
model follows the code.

## Model

| member | source | states |
|---|---|---|
| Provider.PresentingCurrentIsGranted | refresh_test.go:86-119 | on a grant no replay has touched, the current token is granted, the grant stays untouched by replays with all its next tokens new, and exactly that one token is consumed |
| Provider.UnlockedRaceRevokes | refresh_test.go:86-119 | for every N >= 2 requests presenting the same live token in any order: one refresh, one replay, the grant revoked, every later answer denied, and the winner's new token refused |
| Provider.RevokedIffReplayed | refresh_test.go:94-106 | over any requests at all, the grant ends revoked exactly when a consumed token was presented, and records one replay then and none otherwise |
| Provider.RevokedDeniesAll | refresh_test.go:95-97 | a revoked grant denies every request and changes no more |
| Provider.GrantedExactlyWhen | refresh_test.go:94-118 | a request is granted, and one refresh counted, exactly for the current token of a grant that stands; a token that was never issued changes nothing |
| Provider.RefreshNamesDiffer | refresh_test.go:108-110 | no refresh token is ever issued twice |
| Provider.RotatingIDP.Token | refresh_test.go:86-119 | the server object's new state and answer are those of the grant function, on every branch |
| Protocol.RunIsLater | tokensource.go:39-76 | over every run the clock never turns back, the lifetime never changes, and the record of refreshes only grows, by entries no older than the run |
| Safety.MutualExclusion | tokensource.go:40-48 | over every run, failures and crashes included, no two goroutines of one process are past the mutex together and no two goroutines of the machine hold the refresh lock together |
| Safety.MutualExclusionFromInit | tokensource.go:40-100 | the same from every process at rest |
| Safety.InvStep | tokensource.go:39-76 | every covered step keeps: a free lock finds the provider's current refresh token stored, and between rotation and Save only the lock holder has it |
| Safety.PresentsCurrent | tokensource.go:67-70 | a covered request always presents the provider's current token, never a consumed one |
| Safety.NoReplay | tokensource.go:39-76 | over every covered run of any number of processes and goroutines no consumed token is presented, no replay is recorded, the grant is never revoked, and a free lock finds the current token stored |
| Safety.NoReplayFromInit | tokensource.go:39-100 | the same from every process at rest with the live refresh token stored |
| RefreshRate.DoPaced | tokensource.go:50-58 | the lock holder asks for a refresh only after seeing the newest token stale, so each of its steps keeps refreshes spaced |
| RefreshRate.RefreshRateBound | tokensource.go:43-57 | with lifetime L above the margin e, a covered run of length T holds at most 1 + T / (L - e) refreshes, any two more than L - e apart, whatever the number of processes and however many calls fail |
| ExactlyOne.OneRun | tokensource.go:47-75 | through every clean interleaving the machine is before, during or after one refresh, until the new token goes stale |
| ExactlyOne.ExactlyOneRefresh | refresh_test.go:162-213 | from an expired stored token, for any number of calls ending before the new token goes stale: at most one refresh, and once any call has returned, exactly one, with every call returning that refresh's token, which is the stored one |
| Progress.CallsAreBounded | tokensource.go:39-76 | one call takes a bounded number of its own steps, whatever other goroutines, processes, failures, crashes and the clock do in between |
| Progress.NoDeadlock | tokensource.go:40-48 | while a call is unfinished some goroutine of its own process can move, even behind a holder that never releases the refresh lock |
| Progress.EveryCallEnds | lock.go:25-47 | from any state with the locks right, a process finishes all its calls alone, within its work bound, with every other process frozen anywhere |
| Progress.AloneDescends | tokensource.go:39-76 | with everything else frozen, each step of a process uses up its remaining work |
| Progress.StuckMeansFinished | tokensource.go:39-76 | any schedule of a process's own goroutines that cannot go on has finished every call, within the work bound |
| Hazards.WithoutTheLock | lock.go:32-47 | from every pair of processes on one expired token, a run whose one uncovered step is refreshing without the lock loses the grant |
| Hazards.LoadFailing | tokensource.go:53-58 | the same for one Load that fails under the lock |
| Hazards.SaveNotTaking | tokensource.go:71-74 | the same for one Save that fails, or that an old keyring entry hides |
| Hazards.LosingTheResponse | tokensource.go:67-70 | the same for one response lost after the provider rotated |
| Hazards.CrashingBeforeSave | tokensource.go:67-74 | the same for one crash between the rotation and Save |
| Calls.CallsReturnWhatTheyFound | tokensource.go:39-76 | over every run from rest, failures, crashes and interleavings included, a call that has ended returned an error alone exactly if discovery failed, a request or its answer was lost, or its request gained no refresh; a token beside an error exactly if its save failed, and then the very token the provider issued to it; and otherwise a token that was usable in memory or in the store at a moment inside the call, or the one issued to it, saved |
| Calls.CallSoFar | tokensource.go:39-76 | the same at every moment of an unfinished call: what it holds was issued to it, and nothing has failed unless it is returning that |
| Calls.AsksOnlyWhenNoneIsUsable | tokensource.go:43-60 | discovery and the provider are tried only by a call that has found no usable token in memory and then none in the store |
| Calls.DiscoversOnce | tokensource.go:60-66 | over every run from rest, a request is made only by a process that has the discovery document, and once one of its calls fetched it, none fails in discovery until its source is opened again |
| Lock.LockRefresh | lock.go:30-49 | the polling loop gets the lock at its first poll that finds it free, polls being lockPoll apart, and otherwise degrades exactly at the deadline after every poll before it failed, or at once without a state directory |
| Lock.PollsInHolds | lock.go:15-19 | failed polls are paid for by the holds they fall in, one poll interval each beyond the hold's length |
| Lock.FailuresAreBounded | lock.go:15-19 | a wait whose polls all failed is no longer than the others' holds plus one poll interval per hold |
| Lock.LockRefreshSucceeds | lock.go:12-19 | if the others' holds and one poll interval for each come to less than the wait, the lock is obtained, within that time |
| TimedLock.HoldsTotal | lock.go:12-19 | the holds so far, one of them the refresh, come to at most (n-1) * h + H for n of them |
| TimedLock.NoDeadline | lock.go:12-19 | in every reachable contest of N processes with H + (N-1) * (h + poll) < wait, a waiter's failed polls stay under the deadline |
| TimedLock.NobodyTimesOut | lock.go:12-49 | if H + (N-1) * (h + poll) < wait, over every interleaving of arrivals, polls, releases and the clock no process times out into an unlocked refresh, and as soon as one has got the lock exactly one refreshes |
| TimedProtocol.NeverDue | lock.go:12-49 | in a timed run of the protocol a waiter is never at its last poll nor at its deadline |
| TimedProtocol.HoldsAreWhatTheyAre | tokensource.go:47-58 | a hold that comes after the refresh finds the new token and never goes past reading the store |
| TimedProtocol.TimedRunsAreSafe | tokensource.go:39-76 | N goroutines over an expired token, polling on schedule and holding the lock at most H to refresh and h to re-read: if H + (N-1) * (h + poll) < wait, every run in which nothing else goes wrong, up to the new token going stale, obtains the lock throughout, replays nothing, and refreshes exactly once for all |
| Logout.LogoutHoldsExactlyWhen | store.go:208-225 | after a logout nothing is ever stored again, over every run, exactly when no goroutine has a refreshed token to save, none is refreshing one the provider would take, and no running process holds such a token that can go stale |
| Logout.CarriesOut | tokensource.go:53-75 | any such threat has a run that puts a token back, since a refresh whose Load finds nothing goes on with the token in memory |
| Logout.RunningProcessUndoesIt | tokensource.go:53-75 | the everyday case: a process at rest with the stored token, if it expires and can be refreshed, undoes a logout |
| Tokens.PersistedFormRoundTrips | store.go:30-54 | what is persisted comes back whatever it is |
| Tokens.InMemoryFormRoundTripsIff | store.go:19-54 | the in-memory form comes back exactly when a non-empty textual id token is all it carried beside its fields |
| Tokens.ConversionsKeepFields | store.go:19-54 | both conversions keep each of the four fields, and the id token in its own place |
| Keyring.PresentOnlyOnDarwin | keyringerr.go:41-107 | a keyring is known to exist exactly on a Mac, whatever the failure, and is locked exactly for exit status 36 there |
| Keyring.MemoryKeysDiffer | memorykeyring.go:22 | within one service different users never share an entry |
| Keyring.MemoryKeyring.Set | memorykeyring.go:24-29 | replaces one entry, or refuses and changes nothing |
| Keyring.MemoryKeyring.Get | memorykeyring.go:31-39 | answers the entry, its absence, or the fault |
| Keyring.MemoryKeyring.Delete | memorykeyring.go:41-50 | removes one entry, reports an absent one, or refuses and changes nothing |
| FileStore.PutChangesOne | filestore.go:55-65 | Set succeeds exactly on a working disk, panics exactly over a file that holds null, changes only its own client's token, and changes nothing when it fails |
| FileStore.DropChangesOne | filestore.go:67-80 | Delete succeeds exactly where a working disk holds the client's token, removes only that, says not stored exactly where reading finds none, and changes nothing when it fails |
| FileStore.FindAnswers | filestore.go:40-98 | Get gives exactly what the file holds for the client, and otherwise says whether the file could not be read or not be parsed |
| FileStore.PutRefusedFor | filestore.go:55-133 | the reason Set gives is the first that holds: no state directory, a file that cannot be read or parsed, null in it, or no writing |
| FileStore.File.Set | filestore.go:55-65 | the file object's new content and error are Set's |
| FileStore.File.Delete | filestore.go:67-80 | the file object's new content and error are Delete's |
| FileStore.File.Get | filestore.go:40-53 | reading answers the token, none, or why the file cannot be read |
| FileStore.File.Write | filestore.go:104-133 | the file is replaced whole or left as it was |
| TokenStore.SaveThenLoad | store.go:149-206 | a successful Save is what the next Load returns, from the backend Save named, exactly when a keyring that took it answers Get and one that refused it gives no entry of its own, with Set, Get and Delete failing each on its own |
| TokenStore.LoadAnswers | store.go:172-206 | Load gives the keyring's token exactly where the keyring gives one for the client, and the file's exactly where it gives none and the file holds one; the reason a keyring refused is given exactly where it refused and the file held nothing, and nobody is logged in exactly where both were read and held nothing |
| TokenStore.SaveAnswers | store.go:139-170 | Save names the keyring exactly where it took the token, its refusal exactly on a Mac, and the file exactly off a Mac over a file that works; a save that fails leaves both stores as they were |
| TokenStore.DeleteForgets | store.go:208-225 | Delete leaves nothing to load however the keyring answers later, exactly when the keyring answered it or held nothing and the file works or held nothing; it says nobody was logged in exactly when it removed nothing and the file held nothing |
| TokenStore.ClientsAreIndependent | store.go:149-225 | one client's Save and Delete leave every other client's token as it was |
| TokenStore.Store.Save | store.go:149-170 | the store object's new backends and answer are Save's, including the refusal to downgrade |
| TokenStore.Store.Load | store.go:178-206 | the store object answers from the keyring, then the file, then with the reason the keyring gave |
| TokenStore.Store.Delete | store.go:214-225 | the store object forgets in both backends and reports the file's fault first |
| StoreRefinement.StoreRefinesMap | store.go:149-225 | off the Mac, over a working file, while the keyring only revives, every sequence of Save, Load and Delete gives the replies of one map and leaves a store that stands for the map's end |
| StoreRefinement.LeavingDiffers | store.go:149-225 | a keyring that leaves answering everything for anything less, whichever of its three requests it refuses, has a placing of operations one map answers otherwise |
| StoreRefinement.TakingDiffers | store.go:149-225 | so does a keyring that takes a token while refusing Get or Delete |
| StoreRefinement.OneMapExactlyWhen | store.go:149-225 | off the Mac, over a working file and a keyring of tokens that answers everything or holds nothing, for every history of availabilities: the store gives one map's replies to every placing of Save, Load and Delete exactly when the keyring takes nothing until it answers everything and then never stops answering |
| StoreRefinement.DyingKeyringResurfacesStale | store.go:172-206 | the run: once the keyring dies again, the load after saving a and then b gives a |
| StoreRefinement.ReadOnlyKeyringHidesTheSave | store.go:149-193 | the run: with Set refused and Get answered, the load after saving a and then b gives a |
| StoreRefinement.WriteOnlyKeyringHidesTheSave | store.go:149-193 | the run: with Set answered and Get refused, the load after saving a to the file and then b gives a |
| StoreRefinement.DeletedTokenComesBack | store.go:208-225 | the run: a Delete while the keyring is dead reports success, and once it is back the load gives its old token |
| StoreRefinement.MacNeverDowngrades | store.go:139-164 | on a Mac with no file token, under any pattern of locking, the file is never written and the keychain holds exactly what was successfully saved and not successfully deleted since |
| StoreRefinement.MacLoadsTheLastKept | store.go:156-206 | on a Mac a successful Load returns the last such token, and Load says nobody is logged in exactly when there is none or the keychain does not answer Get |
| StoreRefinement.LockedDeleteKeepsTheToken | store.go:208-225 | on a Mac Delete of a stored token says nobody was logged in exactly when the keychain refuses it, and the token then stays |
| AtomicFile.ReadersSeeWholeMaps | filestore.go:100-133 | any number of concurrent writers with fresh temp names, stopped at any step, leave the path as it was at first or holding the whole map some writer passed |
| AtomicFile.StepKeepsView | filestore.go:115-132 | the path changes only by a rename, and then to the renaming writer's whole map |
| AtomicFile.ShowsTheLastRename | filestore.go:100-133 | after any run a reader of the path sees the whole map of the writer that renamed last, or what was there at first |
| AtomicFile.SlowReadersReadOneFile | filestore.go:82-98 | a reader that opened the path goes on reading the file it opened, whatever is renamed over it |
| AtomicFile.ReusedNameTears | filestore.go:115-132 | fresh temp names are needed: with a reused one a torn file can reach the path |
| Composition.LoadInTwoHalves | store.go:178-193 | uninterrupted, the keyring read and the file read of a load find what Load finds |
| Composition.SaveInTwoHalves | store.go:156-169 | uninterrupted, the keyring write and the file write of a save leave what Save leaves |
| Composition.RunSimulates | store.go:149-206 | every covered run over the two backends, with a revival anywhere, is a covered run of the protocol, step for step or stutter, and a clean one a clean one |
| Composition.NoReplayOverTheRealStore | tokensource.go:39-76 | no replay over the two backends: the grant is never revoked, the next request never presents a consumed token, a load under the lock never misses, and a free lock finds the current token |
| Composition.RateBoundOverTheRealStore | tokensource.go:43-57 | the refresh rate bound over the two backends, on the count and on the gap between any two refreshes |
| Composition.ExactlyOneOverTheRealStore | tokensource.go:47-75 | exactly one refresh over the two backends: once any call has returned, one refresh has been made, every call returned its token, and a load of the two halves finds it |
| TokenSource.LockingTokenSource.Token | tokensource.go:39-76 | a usable token in memory is returned and nothing touched; otherwise a usable one in the store, which is kept in memory; otherwise a token exactly if the provider counts one refresh more for the token presented and its answer arrives, and then the one issued, kept in memory and handed to the store, with an error beside it exactly if the save failed; under any weather the call is a path of its own steps and the clock, from the state it found to the state it leaves, covered in fair weather |
| TokenSource.LockingTokenSource.Locked | tokensource.go:47-76 | under the lock attempt: the stored token if it is usable, and otherwise what the refresh gives for the token found; the path goes on to the call's end |
| TokenSource.LockingTokenSource.Renew | tokensource.go:60-75 | the provider is asked only where discovery has been done or succeeds now, which it then stays |
| TokenSource.LockingTokenSource.Refresh | tokensource.go:67-75 | no token without a refresh counted and its answer received, and with both the issued one, kept and saved; the path goes on with whatever the provider answers or loses |
| TokenSource.LockingTokenSource.Keep | tokensource.go:71-75 | the token returned is what was granted, with the lifetime counted from its arrival, and it is kept in memory and saved |
| TokenSource.LockingTokenSource.Persist | tokensource.go:72-75 | the token is handed to the store and returned, with an error beside it exactly if the save failed |
| TokenSource.SaveActIsRight | tokensource.go:72-74 | a Save is the protocol's Save, hidden Save or failed Save exactly as the store takes the token, hides it or refuses it, and only the first changes what Load gives |
| TokenSource.FairCallKeepsTheGrant | tokensource.go:39-76 | a covered call that starts on a sound grant with its current token stored leaves both so |
| Toml.EscapeScans | deployment.go:347 | any string written as a quoted value reads back as itself, whatever follows its closing quote |
| Toml.EscapeIsOneLine | deployment.go:347 | a quoted value never breaks its line |
| TomlText.DocumentReadsBack | deployment.go:480 | a document written out, with indentation, comments and blank lines, reads back as it is: the rows above the first header at top level, those below a header in its table alone, every string with its characters and every array with its items in order |
| TomlText.ItemsScan | deployment.go:480 | an array's items come back in their order, whatever characters they hold |
| TomlText.LiteralParses | deployment.go:480 | a string between single quotes is taken as it stands |
| TomlText.MultilineReads | deployment.go:480 | lines between triple quotes are one string, without the line break after the opening ones |
| Merge.KeyLineParses | deployment.go:115-121 | a written key's line reads back as that key with that value, whatever the value holds |
| Merge.ReadLinesWithTop | deployment.go:325-327 | any text reads the same below keys already defined at top level, table by table, and fails exactly when it defines one of their names |
| Merge.MarkedRest | deployment.go:355-358 | text that starts with a byte order mark never reads below keys put before it |
| Merge.MergeKeepsMeaning | deployment.go:331-360 | the merged text parses exactly when the old one defined none of the added names and does not start with a byte order mark, and then holds the old bindings plus exactly the added ones at top level and every table unchanged; the old text is its end in any case |
| TokenCommand.ArgvRoundTrip | deployment.go:87-97 | an argv comes back as it was exactly when no argument holds a NUL and it is not one empty word |
| TokenCommand.EqualWhenArgvsAre | deployment.go:81-97 | two commands are equal exactly when their argvs are |
| TokenCommand.AcceptedArgvs | deployment.go:492-497 | for argvs a config file may set, joining loses nothing, equality is equality of argvs, and the zero command is exactly the one never set |
| ApiUrl.NormalizeIsIdempotent | deployment.go:501-510 | a normalized API is accepted, unchanged by normalizing again, and never empty |
| ApiUrl.TrimmedEnds | deployment.go:509 | no trailing slash is left |
| ApiUrl.NormalForm | deployment.go:504-510 | the normal form of an accepted URL is what is left of it without the slashes that end it, all of them and nothing more |
| ApiUrl.PlaceIsAPI | deployment.go:504-508 | behind http or https in any mixture of cases, exactly a valid authority and path make an API |
| ApiUrl.QueryIsFree | deployment.go:504-508 | a query is taken exactly if it holds no control character |
| ApiUrl.FragmentEscapes | deployment.go:504-508 | a fragment is taken exactly if its escapes are whole |
| ApiUrl.EscapesAre | deployment.go:504-508 | an escape is a percent sign and two hex digits, no less, and nothing else about a text is looked at |
| ApiUrl.PlaceSplits | deployment.go:504-508 | the authority ends at the first slash, and of the path only the escapes count |
| ApiUrl.UserAndHost | deployment.go:504-508 | an authority is a host, with a valid user before an at sign or none |
| ApiUrl.NameAndPort | deployment.go:504-508 | a name of letters, digits and marks is a host, alone or before a colon, exactly if only digits follow that |
| ApiUrl.SecondColonRefused | deployment.go:504-508 | a host without brackets holds at most one colon |
| ApiUrl.BracketsNeedAnAddress | deployment.go:504-508 | brackets around anything without a colon are no host |
| ApiUrl.BracketedAddressIsHost | deployment.go:504-508 | any IPv6 address in brackets is a host, before a port or not |
| ApiUrl.AddressesCountGroups | deployment.go:504-508 | groups of hex digits are an IPv6 address exactly if there are eight of them, or fewer with one double colon among them |
| ApiUrl.SchemeIsNeeded | deployment.go:504-508 | an API starts with one of the two schemes |
| ConfigFile.ReadConfigFile | deployment.go:468-499 | the reading loop gives the settings or the first refusal in the code's order |
| Spelling.InSpellings | deployment.go:480 | the names bound to a field are exactly those defined that equal it in lower case |
| ConfigFile.ReadMeans | deployment.go:462-499 | in one order of decoding, a file reads as given settings exactly when it parses and says them in that order: a key reads as absent only where nothing spelled exactly so defines it |
| ConfigFile.MayReadAs | deployment.go:462-499 | what a file may read as is exactly what some spelling of each key says, a key without any being empty |
| ConfigFile.MustReadAs | deployment.go:462-499 | it reads so in every order exactly when every spelling of each key says it |
| ConfigFile.MergedReads | deployment.go:331-376 | adding keys a file lacks makes a file that reads in every order as it did with those keys set and nothing else changed, exactly when it does not start with a byte order mark and no other spelling of a key in it says otherwise |
| Deployment.ClientID | config.go:67-77 | a client id is the product's prefix and then the hostname, or the product and -cli where there is none, and never empty |
| Deployment.ClientIDsDiffer | config.go:67-77 | two machines of one product share a client id exactly when they share a hostname, or one has none and the other is spelled like product and -cli |
| Deployment.MissingIsWhatIsEmpty | deployment.go:175-191 | a key is reported missing exactly when it is required and has no value |
| Deployment.TrustedApi | deployment.go:158-230 | loading succeeds exactly for a file that reads, an address that is an API, the keys needed, and an API that is the file's or whose metadata names that very resource and lists the file's issuer; only an API that is not the file's is asked |
| Deployment.ReadConfigAccepts | deployment.go:79-97 | an argv a file reads as comes back as it was, and hands tokens unless it is empty, exactly unless it is one empty word, which token_command spelled exactly never sets |
| Deployment.LoginSucceedsExactlyWhen | deployment.go:250-318 | a login goes ahead exactly when the file reads and sets no token_command, an API is known, what was typed agrees with the file, a missing issuer can be discovered and nothing would be written through a link; only a missing issuer is asked for. What it comes to is in Choices.LoginGives |
| Choices.LoginGives | deployment.go:250-318 | every field of what a login resolves: the API is the file's or the one typed, in normal form; the issuer the file's or the one server in the document the API serves about itself; the client id the file's, else the flag's, else the machine's; each with its source and where that is |
| Choices.LoginRefusedFor | deployment.go:250-318 | a login that is refused says why, the first reason that holds: the file, handed tokens, no API or a conflicting one, no issuer in the API's answer, a conflicting client id, or a link and what it kept from being written |
| Choices.LoadGives | deployment.go:158-230 | every field of what any command loads, beside a problem too: the issuer and client id are the file's whatever API was given, the command comes back word for word, the API given outranks the file's; and the problem is the first that holds |
| Choices.MetadataIsTheAnswers | deployment.go:548-575 | a document is returned as served exactly when it is about the resource asked for, and the refusal otherwise is the answer's own |
| Choices.ConfigIsRefusedFor | deployment.go:468-499 | a config file that does not read is refused for the first thing wrong with it, and an empty value by the first key that says nothing |
| Choices.SaveRefusedFor | deployment.go:331-376 | Save fails for a file that does not read, for a link, naming exactly the values not from a file that it lacks, or for writing, in that order; and a failed Save writes nothing |
| SaveAndLoad.SaveAddsWhatIsMissing | deployment.go:331-376 | whatever the file holds by now, Save fails exactly when it does not read or a needed write is linked or impossible, and changes nothing then; otherwise the old text is kept as the end, and every later reading finds the old settings and exactly the values lacking, exactly when Save need not write or there is no byte order mark, and no other spelling says otherwise; saving again then writes nothing |
| Deployment.BareMachineLogsIn | deployment.go:232-318 | a machine with no config file logs in to any API that names one issuer, asking only that API, with the three values from the command line, discovery and the hostname |
| SaveAndLoad.LoginRoundTrip | deployment.go:232-376 | after any login, Save and then the next load give the same three values from the file and ask nobody, in every order of decoding, exactly when the issuer is not empty, Save can write what it has to and not below a byte order mark, and every spelling of a login key in the file says what the login settled on |
| SaveAndLoad.SaveAfterLogin | deployment.go:331-376 | where spellings settle, Save after a login fails only where a needed write is impossible and never for a link, a second Save writes nothing, an empty issuer is all the next load misses, and below a byte order mark the file stops parsing |
| SaveAndLoad.EmptyIssuerIsLost | deployment.go:285-289 | the input: for an API naming one empty issuer the deployment resolves, and saving it loses the issuer, so that the next command is not configured |
| SaveAndLoad.EmptySpellingIsRefused | deployment.go:484-491 | an empty api spelled in another case passes as no api, and after a successful Save some order of decoding refuses the file for it |
| SaveAndLoad.OtherCaseIsRefused | deployment.go:484-491 | the input: the file API = "" and a login to http://h/ |
| SaveAndLoad.EmptyProgramPasses | deployment.go:492-494 | the input: Token_Command = [""] passes without a program, so a login is refused as handed its tokens while no command hands any |
| SaveAndLoad.MarkedFileIsSpoiled | deployment.go:331-360 | the input: over a file that is a byte order mark alone, Save succeeds and no command reads the file again |
| Deployment.Host.ReadProtectedResourceMetadata | deployment.go:548-575 | one request, and the document or the refusal in the code's order |
| Deployment.Host.RequireTrustedIssuer | deployment.go:214-230 | the loop over the servers distrusts exactly what does not vouch |
| Deployment.Host.MissingKeys | deployment.go:182-187 | the loop reports the required keys without a value, in order |
| Deployment.Host.CheckAPI | deployment.go:196-206 | an API that is the file's is not asked, and any other is asked once |
| Deployment.Host.LoadDeployment | deployment.go:158-208 | the result, the problem and the requests made are those of loading, which Choices.LoadGives spells out |
| Deployment.Host.DeploymentForLogin | deployment.go:250-318 | the result and the requests made are those of logging in, whose fields Choices.LoginGives and whose refusals Choices.LoginRefusedFor spells out |
| Deployment.Host.Save | deployment.go:331-360 | the file and the problem are those of saving, and nothing else changes |
| DevicePoll.ContinuesExactly | login.go:175-209 | polling slows exactly on slow_down, HTTP 429 and temporarily_unavailable in JSON past 2xx, on a redirect as well, whatever the content type makes x/oauth2 read; where no redirect stands in the way it repeats exactly on any other pending answer, and is approved with a token exactly by a status in the 200s, a readable body, no error code and that token, not empty |
| DevicePoll.JudgesExactly | login.go:148-162 | without the rewriting: the two codes x/oauth2 waits on, whatever the status, and the answers that give a token |
| DevicePoll.RewritingSaves | login.go:148-170 | the rewriting ends a poll that would have gone on exactly where a redirect's body cannot be read, and saves exactly the ended ones that ask to wait some other way |
| DevicePoll.PollForApproval | login.go:152-162 | the polling loop makes its polls when the schedule says and ends as it does: what that comes to is in DevicePoll.PollEndsFor and DevicePoll.PollTimes |
| DevicePoll.PollEndsFor | login.go:148-162 | every poll ends for one reason: the last answer gives the token returned, or neither gives one nor lets polling go on, all before it letting it go on; or the next poll would be due at the deadline or later; or there is no further answer |
| DevicePoll.GrantedExactlyWhen | login.go:148-170 | a login gets a token exactly when some answer, at the end of its redirects, has a status in the 200s, a readable body, no error code and that token, not empty, is due before the deadline, and only answers that let it wait come before |
| DevicePoll.GapsGrow | login.go:164-173 | each gap is the base interval plus five seconds for every answer so far that asked to wait |
| DevicePoll.ConsecutiveWaits | login.go:164-173 | after n answers in a row that ask to wait, poll n + 1 is made at (n + 1) * base + 5 * n * (n + 1) / 2 seconds |
| DevicePoll.PollTimes | login.go:152-162 | every poll is made at its due time, before the deadline, after answers that all continue |
| CommandToken.ExpiryExactlyWhen | commandtoken.go:96-98 | a computed expiry is never later than promised, and is the promised one exactly up to 9223372036 seconds |
| CommandToken.WrapIsCongruent | commandtoken.go:96-98 | the 64-bit duration is the product but for whole multiples of two to the 64 |
| CommandToken.OneSecondTooMany | commandtoken.go:96-98 | 9223372037 seconds wraps to an expiry long past, so the token is never reused |
| CommandToken.AcceptsExactly | commandtoken.go:80-100 | a run is accepted exactly when it printed a non-empty access_token, a type empty or bearer in any case, and no negative lifetime, and is otherwise refused for the first of these it lacks; the token is a bearer token with what was printed and no refresh token, and expires exactly if a lifetime was printed |
| CommandToken.AnswersAreAsPrinted | commandtoken.go:36-100 | over any calls, every token returned, reused ones too, is as the last accepted run printed it, and every refusal is for what this call's own run printed |
| CommandToken.NeverReusedPastItsTime | commandtoken.go:36-41 | over any calls, every token returned was handed by a run at that call or before, and with a positive expires_in is returned again only while ten seconds of it are left, whatever its 64-bit value |
| CommandToken.RunsExactlyWhen | commandtoken.go:28-30 | a call runs the command exactly when no token handed so far has ten seconds left by its computed expiry |
| CommandToken.WithoutLifetimeRunsOnce | commandtoken.go:29-30 | once a token without expires_in is handed, every later call returns it and none runs the command |
| CommandToken.CommandSource.Token | commandtoken.go:75-100 | the source's answer, what it holds, and whether it ran the command, on every branch, are those CommandToken.AnswersAreAsPrinted and CommandToken.RunsExactlyWhen describe |
| CommandToken.CommandTokenSource | commandtoken.go:36-41 | a command that names no program is refused, and any other starts with nothing held |

## Left out

- HTTP, TLS, discovery fetching and JSON: a response is a value the environment chooses, and a stored token's JSON is an encoding its decoder undoes. Bodies past the size limits are not distinguished.
- x/oauth2, go-keyring, flock and the TOML library as code: only the behaviour this package relies on is modelled.
- clientcredentials.go: a few checks around a library call.
- ClassifySession, IsSessionRejected, VerifySession and BrowserURL: each is settled by reading one branch.
- WriteDeployment, WriteInstructions, describeSource, refuseLink's wording and every other message: presentation. The kind of error is kept.
- Running the token command, trimming its stderr, file modes, directory creation and Windows behaviour.
- ConfigPath, StateDir and the hostname lookup: their results are inputs. The prefix clientid.PersonPrefix gives is an input too, since that package is not part of this model.
- protectedResourceMetadataURL: the URL a document was read from comes with the environment's answer.
- Two clients writing token.json at once: its read-modify-write is shared by clients and their lock is not, so the protocol has one client id per state directory.
- A login saving its token while another process refreshes: Save after a login takes no lock, so it is not a step of the protocol. A logout empties the store in one step in Logout; its two halves are TokenStore's.
- The config file edited between Save's read and its rename: the code does not prevent it. Any edit before Save's first read is covered.
- writeFileAtomically's system calls: the same shape as fileStore.write, which is taken apart in AtomicFile.
- holdUntil and wait: they only order the requests of a test, and every order is covered.
- An initial refresh token spelled like one the provider will issue ("rt-1"): excluded from a sound grant.
- A provider whose answers carry no refresh token, or that rotates nothing: only the rotating one is modelled.
- TOML beyond the subset: dotted and quoted keys and table names, arrays of tables, inline tables, dates, numbers in any other notation, arrays over several lines or of anything but basic strings, and escapes, carriage returns or further quotes inside multi-line strings. A text with any of them does not parse here.
- The TOML library's source is not part of this model: that its decoder passes over a byte order mark at the start of a file and nowhere else, and binds keys to fields exactly or in another case, in map order, is how it behaves.
- Values that are not valid UTF-8: every text here is Unicode, so a --client-id of other bytes, which the encoder writes as they are and the decoder refuses, is not expressed. A UTF-16 mark is not either.
- A zone on an IPv4-mapped IPv6 address: it is taken like any other zone. url.Parse is modelled as in the Go release go.mod names, which is not part of this repository.
- TokenSource.LockingTokenSource.Token: is one call running alone; interleaved calls are the runs of Protocol, where the same steps appear one by one.
- DevicePoll.PollForApproval: answers take no time, and a poll due exactly at the deadline is not made. The client's limit on redirects, and the method it follows them with, are the environment's.
- AtomicFile.ReadersSeeWholeMaps: says nothing of a machine losing power, since the code does not sync.
- Progress.EveryCallEnds: counts steps and not time, since a request may take as long as its client lets it.
