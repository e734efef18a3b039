# Cosign: a verified model

Cosign is a web single sign-on system. A browser that has logged in holds a *login cookie*; for
each protected web service it also holds a *service cookie*. The daemon `cosignd` keeps one file
for every cookie: a login record (user, first and current address, factors, whether it is live,
the time of the last touch) or a pointer from a service cookie to its login cookie. The login CGI
gives the daemon LOGIN, LOGOUT and REGISTER, the filters in the web servers ask CHECK and REKEY and
keep the answers for a minute, the daemons tell each other what happens, and `monster` sweeps old
files away.

The project models these parts in Dafny and proves what they are for:

* the buffered line reader under every protocol, and the ticket transfer on top of it
  (`Splitter`, `Snet`, `Replies`, `Ticket`);
* the daemon's commands as an in-place store (`Cosignd`), as functions from a store to the next
  one (`Commands`), told by the guards a caller can look at (`Effects`), what each answers and leaves
  in plain numbers (`Answers`), the laws that every run
  of them keeps (`Laws`), what the lines of a ticket do to the words of its LOGIN (`LineBuffer`), and
  what a LOGIN leaves whose ticket is lost (`LostTickets`);
* the sweep (`Monster`) and what it tells other daemons (`Telling`), replication by forwarding
  (`Replication`), and idle times shared by several daemons (`GreyWindow`);
* the filter: reading the daemon's reply (`Netcheck`), asking a list of servers (`ServerList`), the
  cache, its files and its races (`FilterCache`, `CacheFile`, `FilterRaces`), and how stale its answers can be (`Staleness`);
* the text layers: cookies and their paths (`MkCookie`, `Base64`), words (`ArgcArgv`, `Text`), the
  login record's file (`RecordFile`), and the redirect limiter of the CGI (`LoopChecker`).

`dafny verify dfyconfig.toml` checks everything.

## How the model is built

Code that changes things in place is a class or a method with loops, over arrays where the source
has buffers and over a linked list where it has one. Each such method is proved equal to a
function of its inputs or of the old state, and the laws are lemmas about those functions. The
functions that serve as specifications have no contract of their own; the rows below name the
methods and lemmas that tie them to the code and say what they mean. They are: `Splitter.Next`
(one line) and `Splitter.Calls` (all lines), `Ticket.Wire` and `Ticket.Got` (the transfer), `Base64.Encoded` and `Base64.Decoded`,
`Text.Tokens` and `Text.Join`, the `..Step` functions of `Commands` with `Commands.Exec` and
`Commands.Run`, `MkCookie.Path`, `LineBuffer.AfterLines` and `LineBuffer.Gone`, `Monster.Pass.Sweep` and `Monster.Pass.AllLines`, `Replication.Forwarded` and `Replication.Apply`,
`FilterCache.Decide` and `FilterCache.Call`, `FilterRaces.Do`, `Netcheck.Netcheck`,
`CacheFile.Fields`, `RecordFile.ReadBack` and `LoopChecker.Request`.

* A C string is a Dafny string. Bytes of the base64 coder are integers from 0 to 255 with shifts and
  masks written as division and remainder. Times and sizes are unbounded, except where the code
  stores a printed `int` in an `unsigned int` (`Ticket.Unsigned`).
* A socket hands out any non-empty part of what has arrived, at any time, or fails; contracts about
  the reader hold for every choice.
* A store is one map from cookie names to files; `MkCookie.PathInjective` is why the hashed
  directory is such a map. The hash directories are those that `scripts/dbhash/mkhashdirs` makes:
  link(2) and rename(2) to any other fail (`MkCookie.Housed`). One command is one atomic step.
* The words of a command stand in the line buffer, and `f_login` reads the lines of a ticket into it
  before it uses them again, to unlink the record and to tell the pusher. What they say then is a
  parameter of a LOGIN (`Commands.Memory`), over which every law quantifies; `LineBuffer` derives it
  from the lines read, and `LineBuffer.GetLineOver` ties that to the reader.
* The clock, freshly minted names, authorisation (`allowed`), the outcome of a ticket transfer and
  the answers of servers are parameters.

## Results that are conditions

Some promises do not hold without a condition. The conditions speak of what goes into a call, and
for a LOGIN with a ticket of what is sent with it:

* A sweep leaves the same store for every directory order exactly if no service cookie names a
  service cookie that goes in the same sweep (`Monster.Pass.OrderFree`). With logins that are named
  "cosign=.." that is always so (`Monster.WellNamedOrderFree`), and it stays so as long as nobody
  registers with another name (`Monster.WellNamedKept`); five commands of a CGI that does register
  with one lead from the empty store to one where the order matters (`Monster.ChainIsReachable`).
* A LOGIN reaches a replica in full exactly if the words pushed are still those of the line and the one
  factor among them brings all the news (`Replication.LoginTold`). Without a ticket that is so exactly
  if all factors but the first were known before (`Replication.CarriedIff`); with one whose lines are
  read alone, exactly if besides the ticket has less than ten thousand characters, since a size of
  five digits reaches the cookie (`Replication.TicketTold`). A REGISTER or a RETR does unless it
  comes to a live record idle beyond the grey window (`Replication.RegisterTold`,
  `Replication.RetrTold`), a CHECK or REKEY unless it comes to one or to the renaming
  (`Replication.CheckTold`).
* The grey window holds over every run without a LOGIN of a record that is more than `idle` seconds
  old, since `f_login` does not look at the time of the last touch (`GreyWindow.StaysLiveWhileInUse`).
  A LOGIN opens the way to an idle logout of a cookie in use, by some run behind it that keeps all
  the other conditions, exactly if the record is that old (`GreyWindow.LoginBreaksIff`), and the CHECK
  is then answered 431 (`GreyWindow.RefreshBreaksIt`); with no command behind the LOGIN, exactly if it
  is more than `grey` seconds old, too (`GreyWindow.LoginAloneBreaksIff`).
* Touches reach every daemon in time if within a grey period each daemon's monster tells the time of the
  cookie to each other daemon where it is earlier, by TIMEs between any other commands
  (`GreyWindow.ExchangeDelivers`). A pass tells of a record that stays exactly if it has been touched
  after the second in which the last pass that came through began (`Telling.YoungIsToldIff`), so that
  a touch in that very second, behind the visit, is told by no later pass.
* What a pass tells is true exactly if no record goes behind one that stays and has been touched since
  the last pass, unless at the same time (`Telling.AllTrueIff`): `eat_cookie` leaves the time alone when it
  deletes a cookie, and `do_dir` sends it under the name of the deleted one. A login that is idle
  beyond the grey window at two daemons is in use again at the one when the other has swept it in
  such an order (`Telling.OverComesBack`).
* Minting needs `len` reduced by at least 3 to stay in its buffer (`MkCookie.FitsIff`).
* An accepted cookie has a directory exactly if none of the hashed characters behind its first "="
  is one of ". = @ _" (`MkCookie.HousedIff`). One without is refused by link(2), so that every stored
  cookie is in a directory that the sweep opens (`Laws.AllHousedKept`, `Laws.HomelessIsNeverStored`),
  and a whole pass leaves no login past a timeout and no dangling service cookie, and takes no other, whatever happened before
  (`Monster.CleanAfterAnyLife`), as long as nobody registers with a login not named "cosign=..".
* A LOGIN that is not answered with success changes the store exactly if the daemon had asked for a
  ticket, except that a new record is taken back if unlink(2) finds its file under the name that then
  stands where the cookie was (`LostTickets.FailedLoginChangesIff`). If not, the new login cookie
  passes at once (`LostTickets.FailedLoginPassesIff`, `LostTickets.RefusedButLoggedIn`), and its ticket
  is never asked for again (`LostTickets.TicketStaysLost`). With lines read alone the record is found
  exactly without hashing, if size and wrong line have at most four characters each, or if its path
  comes in behind six others (`LostTickets.TakenBackIff`). Any longer wrong line leaves the cookie good
  (`LostTickets.WrongLineLogsIn`), and six characters and the path of another cookie take that cookie's
  file (`LostTickets.WrongLineTakesAnother`), both with hashing, too.
* A replica follows a forwarded line exactly unless it is a REGISTER that comes to a live record idle
  there, beyond the grey window or with a new service name within it (`Replication.ReplicaFollows`).
* A record is read back exactly if every text has room in its field (`RecordFile.RecordRoundTrip`).
  `f_login` sees to that for all fields but the realm: what it writes is read back exactly if the
  factors it leaves, joined, are shorter than 256 (`RecordFile.LoginFitsIff`), which two long factors
  are not (`RecordFile.TwoLongFactors`).
* The required factors are enforced from the cache exactly for entries of version 2, and for those too
  old to be used (`FilterCache.EnforcedIff`); a fresh answer of version 3 is used whatever is required
  (`FilterCache.Version3Unchecked`).
* Cache files keep their owners under every interleaving if rekeyed names are new when the daemon
  answers (`FilterRaces.NewNamesKeepOwners`). A run with a name that was not new hands another
  owner's file over exactly if the name is one of that owner's (`FilterRaces.OldNameChangesOwner`).
* The staleness bound of a minute grows by the longest time between a CHECK and the commit that rests
  on it, and that bound is met (`Staleness.StaleForAMinute`, `Staleness.BoundIsMet`).

## Where the code differs from what is said about it

* `daemon/command.c:1002` refuses CHECK when `ac < 2 && ac > 3`, which no count meets: a line without
  a cookie ends the process, and words behind the cookie are not looked at
  (`Laws.WordsAreNotCounted`).
* A failed read in the middle of a ticket reaches the test of `rc` as an unsigned number, so that
  it is answered with 504 like a failed write and not as a lost connection (`Ticket.CutShort`,
  `LostTickets.AwaitsIff`). That is so where `ssize_t` is wider than `unsigned int`; where it is not,
  the failure of write(2) compares equal to that number and the loop goes on.
* The comment at `daemon/command.c:510` has the record go with a ticket that was not stored. It goes
  for one of three failures of the transfer, and only if its path stands where the cookie was
  (`LostTickets.FailedLoginChangesIff`, `LostTickets.TakenBackIff`).
* The comment above `snet_getline` says that a later call may overwrite what it returned; `f_login`
  uses the words of its line behind such calls (`LineBuffer.GetLineOver`, `Replication.TicketTold`).
* The search for required factors cuts the cached line that is compared with the answer afterwards, so
  that an entry with several factors is written again and not touched (`FilterCache.RepeatedIsTouchedIff`).
* `read_scookie` takes every version but 2 for 0, so entries of version 3 are used without a look at
  their factors (`FilterCache.Version3Unchecked`).
* `eat_cookie` is said to return 0 for a cookie that was deleted; its caller sends a time and a state all
  the same, those of another cookie (`Telling.AllTrueIff`).
* After a last, unterminated line the read pointer is one past the buffered text
  (`Snet.Reader.GetLine`); nothing is claimed of the reader after it.

## Model

| member | source | states |
|---|---|---|
| Splitter.EolIs | libsnet/snet.c:824-836 | the end of a line is the one position with no CR, LF or NUL before it and one of them, or the end, at it |
| Splitter.CallsMatchOnePass | libsnet/snet.c:769-844 | without a limit, calling the line reader until the stream ends gives exactly the lines of a one-pass automaton: LF ends a line, CR or NUL ends one and swallows a following LF |
| Splitter.CallsFromStart | libsnet/snet.c:769-844 | on any stream and with any limit the calls give the one-pass lines up to the first of at least limit characters, and then fail for length |
| Splitter.UptoIs | libsnet/snet.c:791-795 | the lines handed out under a limit are the longest part in front in which every line is shorter than the limit |
| Splitter.CuttingIsInvisible | libsnet/snet.c:769-844 | feeding a stream in any chunks leaves the one-pass automaton where feeding it at once does |
| Splitter.SameStreamSameLines | libsnet/snet.c:769-844 | two ways of cutting the same stream, each fed chunk by chunk, give the same lines, and so do the calls on it with any limit |
| Splitter.TooLongIff | libsnet/snet.c:791-795 | a call fails for length if and only if none of the first limit characters ends the line, whatever the chunks |
| Snet.LimitIsLeast | libsnet/snet.c:791-803 | that limit depends on sn_maxlen alone: the least size of a buffer growing by 4096 that is at least sn_maxlen |
| Snet.Reader.PullUp | libsnet/snet.c:781-788 | moving the unread characters to the front of the buffer changes none of them |
| Snet.Reader.Expand | libsnet/snet.c:791-803 | the buffer grows without losing a character, or is refused exactly when it is full at the limit |
| Snet.Reader.Refill | libsnet/snet.c:779-822 | the fill part loses nothing and stops for the reason the specification gives: full, failed, or end of stream |
| Snet.Reader.Look | libsnet/snet.c:824-837 | one turn of the scan: the character ends the line as specified, or the scan goes on with the FUZZY state right |
| Snet.Reader.GetLine | libsnet/snet.c:769-844 | for every chunking, buffer state and growth, the answer and what stays unread are those of one call on the plain stream |
| Snet.EveryLine | daemon/command.c:1422-1452 | a loop over the line reader under the limit of the connection gives, however the network cuts the stream, the one-pass lines up to the first that is too long, and says whether one was |
| Snet.Reader.HasData | libsnet/snet.c:703-719 | says whether characters are buffered once a left-over LF is out of the way, and changes nothing else |
| Snet.Reader.Read | libsnet/snet.c:725-762 | a raw read hands out the next unread characters in order, with the LF after a CR swallowed at most once, and loses none |
| Replies.GetLineMulti | libsnet/snet.c:846-885 | returns the first line whose number is not followed by a hyphen, or the right refusal, whatever the chunks |
| Replies.LastLineAnswers | libsnet/snet.c:846-885 | any number of numbered lines with hyphens followed by one without is read as that last line, and what follows stays unread |
| Replies.HyphenGoesOn | libsnet/snet.c:846-885 | behind three digits a hyphen means that more lines follow, a blank or nothing that none does, and anything else that the reply is malformed |
| Ticket.Send | cgi/network.c:263-294 | reading the file in any pieces sends the size line, the contents and the dot line |
| Ticket.ReadExactly | daemon/command.c:476-489 | looping over raw reads gives exactly the next n characters of the stream or the reason why there are fewer |
| Ticket.Receive | daemon/command.c:470-527 | a ticket that was sent is stored, however the network cuts the stream; every outcome depends on the stream only, and so does what stays unread behind a line where the dot should be; if size and that line were each read alone, the buffer is what LineBuffer.AfterLines says |
| Ticket.SizeLine | daemon/command.c:470-476 | the printed size comes back as the number of characters |
| Ticket.RoundTrip | daemon/command.c:470-527 | for any ticket, CR, LF and NUL included, the receiver stores exactly what was sent and the stream goes on behind the dot line |
| Ticket.CutShort | daemon/command.c:476-489 | a ticket of which only a part arrives is refused if a read fails behind it, and dropped at the end of the stream |
| Ticket.LineBehind | daemon/command.c:493-527 | whatever line comes behind a ticket, the ticket is stored if it is the dot and a mismatch otherwise, with the stream behind it unread |
| LineBuffer.GetLineOver | libsnet/snet.c:779-844 | a call of the line reader that gives a line leaves every word that begins behind what is then in the buffer, whatever the chunks; a line read alone into the empty buffer leaves just that line, its NUL and the LF at the front |
| LineBuffer.StandsIff | libsnet/snet.c:779-844 | the C string at the place of a word, after both lines of a transfer, is a given text if and only if the last line that reached the place brought it, or it was there and both lines end two characters before it |
| LineBuffer.OwnFileIff | daemon/command.c:510-513 | the name that unlink(2) gets is the path of the cookie itself if and only if that path came in behind as many characters as stand before the cookie, or there is no hashing and no line reached it |
| LineBuffer.OtherFile | daemon/command.c:510-513 | a wrong line of that many characters and the path of any cookie makes unlink(2) find the file of that cookie |
| LineBuffer.CookieStandsIff | daemon/command.c:532-533 | behind a ticket that was stored, size and dot line read alone, the cookie still stands at its place if and only if the ticket has less than ten thousand characters |
| Base64.Encode | common/fbase64.c:359-398 | the loop and the switch write the text and its NUL, 4*ceil(n/3)+1 characters, and nothing behind |
| Base64.Decode | common/fbase64.c:403-420 | the loop writes the decoded bytes, three for four characters, and nothing behind |
| Base64.GroupsArePadded | common/fbase64.h:1-2 | the size macro is four for each group of three bytes begun, and one |
| Base64.EncodedLength | common/fbase64.c:359-398 | the text has four characters for each group of three bytes begun |
| Base64.EncodedAlphabet | common/fbase64.c:359-398 | the text is a string over the 64 characters followed by one "=" for each missing byte of the last group |
| Base64.DecodeOfEncode | common/fbase64.c:359-420 | decoding a text gives the bytes back, followed by one zero byte for each "=" |
| Base64.EncodeInjective | common/fbase64.c:359-398 | different byte strings, of whatever lengths, have different texts |
| Base64.AlphabetIs | common/fbase64.c:5-357 | the characters are those of A-Z, a-z, 0-9, "+" and "-" in this order, both ways; "/" is read as 63, too |
| Base64.GroupNumber | common/fbase64.c:359-398 | every four characters, read as a number to the base 64, are the three bytes read as one to the base 256, missing bytes being zero |
| MkCookie.Mint | common/mkcookie.c:58-76 | for every length, writes the text of some bytes and its NUL within the len characters lent, or nothing |
| MkCookie.FitsIff | common/mkcookie.c:64-68 | no accepted length overruns the buffer if and only if at least 3 is subtracted from it |
| MkCookie.CheckChars | common/mkcookie.c:45-56 | accepts exactly the strings all of whose characters are in the table |
| MkCookie.PathIs | common/mkcookie.c:79-147 | a cookie gets a path if and only if it has no slash, is short, has two characters behind its first "=", and the buffer has room; the path is the directory, the hash directory and the cookie |
| MkCookie.RefusedIff | common/mkcookie.c:79-147 | a path is refused if and only if there is a slash, 1024 characters or more, no "=" or fewer than two characters behind the first, a hash length other than 0, 1 or 2, or no room |
| MkCookie.PathInjective | common/mkcookie.c:79-147 | for every hash length two accepted cookies never share a path |
| MkCookie.MintedCookieIsAccepted | daemon/monster.c:411-438 | a valid name, "=" and a minted value pass both checks, and there is a directory for them, which the sweep opens |
| MkCookie.HousedIff | scripts/dbhash/mkhashdirs:8-22 | of the cookies that pass both checks exactly those have a directory, and are swept, that have none of four characters among the hashed ones behind the first "=" |
| MkCookie.AcceptedButHomeless | common/mkcookie.c:45-147 | the service cookie "cosign-x=__" passes validchars and mkcookiepath and has no directory |
| ArgcArgv.Acav.Push | common/argcargv.c:90-101 | the vector of words grows without losing an entry |
| ArgcArgv.Acav.Parse | common/argcargv.c:46-110 | the line is cut with NULs into exactly its maximal runs of non-white characters, and the entries point at them in order |
| Text.TokensOfJoin | common/argcargv.c:46-110 | cutting a blank-joined list of words gives the list back |
| Text.TokensOfCat | common/argcargv.c:46-110 | white space keeps the words on its two sides apart |
| RecordFile.ReadCookie | daemon/cparse.c:87-207 | the loop over lines of the file fills the record as the specification of its text says, or stops at a broken line, or at a text that has no room in its field |
| RecordFile.LettersAre | daemon/cparse.c:154-193 | a line of the letter i, j, p, r, t or k sets the first or current address, the user, the realm, the birth or the ticket, if the text is shorter than the size of the field |
| RecordFile.OrderDoesNotMatter | daemon/cparse.c:154-193 | lines with different keys are read alike in any order, or have no room in any |
| RecordFile.RecordRoundTrip | daemon/command.c:336-424 | what f_login prints is read back as the same record, in any order of its keyed lines, if and only if every text has room in its field; the live bit comes from the mode only |
| RecordFile.LoginWritesClean | daemon/command.c:336-424 | no successful LOGIN brings a newline into a record |
| RecordFile.LoginFitsIff | daemon/command.c:342-424 | the record of a successful LOGIN has room in the fields of its reader if and only if its factors, joined, are shorter than 256: the checks of f_login cover every other field |
| RecordFile.TwoLongFactors | daemon/command.c:358-389 | a LOGIN with two factors of 200 characters is answered 200 and leaves a record whose realm has no room |
| Cosignd.Daemon.RealmLine | daemon/command.c:375-389 | the nested loops write the old factors and behind them the new ones not among them, and notice whether there are any |
| Cosignd.Daemon.Login | daemon/command.c:228-554 | every branch of f_login changes the store, replies and pushes as the function LoginStep says, with the words as they stand in the buffer behind the ticket |
| Cosignd.Daemon.Logout | daemon/command.c:678-731 | every branch of f_logout does what LogoutStep says |
| Cosignd.Daemon.Register0 | daemon/command.c:739-804 | do_register adds the binding and touches the login, or leaves everything if the name is taken or has no directory |
| Cosignd.Daemon.Register | daemon/command.c:806-897 | every branch of f_register, idle and grey ones included, does what RegisterStep says |
| Cosignd.Daemon.Check | daemon/command.c:969-1057 | f_check from the words of its line: the test of their number, then CheckStep for the second; without a second word the process ends |
| Cosignd.Daemon.CheckCookie | daemon/command.c:1008-1057 | the look-up half of f_check does what CheckStep says |
| Cosignd.Daemon.CheckRecord | daemon/command.c:1059-1160 | the record half: logged out, idle, grey, touched, renamed, and the text of the reply, as the function CheckLogin says, whose answers Answers.CheckIff tells apart |
| Cosignd.Daemon.RetrProxy | daemon/command.c:1250-1303 | registers and pushes every proxy cookie up to the first that has no path, and passes over those that have no directory |
| Cosignd.Daemon.Retr | daemon/command.c:1165-1248 | every branch of f_retr, the idle ones and the kinds of retrieval included, does what RetrStep says |
| Cosignd.Daemon.Time | daemon/command.c:592-676 | the loop over lines moves times forward, and marks again only what is logged out, as the function TimeStep says; Answers.TimeDelivers says to what time |
| Cosignd.Daemon.Replicate | daemon/command.c:556-590 | DAEMON silences forwarding exactly for another host, and for good |
| Cosignd.AllNamedKept | daemon/command.c:366-378 | no command makes a login record without a factor, which f_login relies on |
| Cosignd.OnlyLoginCreates | daemon/command.c:400-405 | a new login record comes from LOGIN only and holds the factors named there |
| Answers.CheckIff | daemon/command.c:1008-1160 | a CHECK is answered 2xx if and only if it comes to a live login touched less than idle seconds ago and a new name that is wanted can be given; 4xx if and only if it comes to a dead one or one beyond idle and grey, or is asked by the wrong peer or of no known kind of cookie; 5xx otherwise |
| Answers.UseIsConfirmed | daemon/command.c:1109-1160 | a CHECK of such a login touches it and leaves its other fields; it is answered 231 or 232, or when a new name is wanted 233, or 536 if the name is too long or has no directory |
| Answers.NoRecordAnswers | daemon/command.c:1008-1066 | a CHECK that comes to no login record changes nothing, and is answered 4xx only for the peer or the kind of cookie |
| Answers.RekeyedIs | daemon/command.c:1113-1125 | a renamed cookie keeps what stands before its first "=", with the minted value behind it |
| Answers.FurtherLoginMakes | daemon/command.c:293-425 | a further LOGIN with nothing new is answered 202 and changes nothing; any other rewrites that record only: first address, user and an old ticket stay, the address is the new one, and the birth is the time of the last touch |
| Answers.LoginFactors | daemon/command.c:342-406 | the factors named, without a last "kerberos", make the list of a first LOGIN; a further one keeps the list and puts behind it just those that are not on it |
| Answers.MissingInOrder | daemon/command.c:375-389 | the new factors stand in the order in which they are named |
| Answers.CookiesRetrieved | daemon/command.c:1234-1303 | a RETR of cookies by a proxy for a login in use binds every new cookie to it and is answered 241; another peer gets 4xx and nothing |
| Answers.RetrieveRefused | daemon/command.c:1165-1248 | any RETR that is not granted and comes to no idle login leaves the store and pushes nothing: 4xx for the peer or an unknown kind, 5xx for the rest |
| Answers.TimeDelivers | daemon/command.c:625-667 | after a TIME answered 260 a live login has the largest of its old time and the times on its lines of three words before the dot, and nothing else about it has changed |
| Answers.PrintedLine | daemon/monster.c:507-508 | the line that the monster prints is cut into the name, the time and the state that were printed |
| Laws.LoginAddsFactors | daemon/command.c:342-406 | after a successful LOGIN the factors are exactly the old list followed by the new ones not in it; user and first address stay |
| Laws.StepPersists | daemon/command.c:228-1303 | no command changes user, first address or ticket of a record, takes a factor away, revives it, or changes a binding |
| Laws.RunPersists | daemon/command.c:228-1303 | the same over every run in which the file stays |
| Laws.WhatRemoves | daemon/command.c:1113-1145 | a command removes a file only by a REKEY of that file that meets the guards of the renaming, or by a LOGIN whose ticket went wrong and under whose overwritten name unlink(2) finds it |
| Laws.DeadNeverPasses | daemon/command.c:1068-1075 | no CHECK or REKEY of a logged-out login, or of a service cookie bound to it, is answered with 2xx or changes anything |
| Laws.LogoutIsFinal | daemon/cparse.c:23-33 | after LOGOUT and any run of commands the record is dead and no CHECK that rests on it passes, as long as it exists |
| Laws.RekeyMovesBinding | daemon/command.c:1113-1145 | REKEY moves the binding to the new name, takes it from the old one, and keeps every other binding with its login, and their number |
| Laws.StepBinds | daemon/command.c:739-804 | after any command a service cookie is bound to a login that one was bound to before, or to the login of the REGISTER that made it |
| Laws.WordsAreNotCounted | daemon/command.c:1002-1007 | no number of words of a CHECK is answered 530: the process ends without a second word, and words behind it change nothing |
| Laws.AllHousedKept | daemon/command.c:783-793 | no command makes a file under a name that has no directory |
| Laws.HomelessIsNeverStored | daemon/command.c:783-793 | "cosign-x=__" is in no store of a hashed database that commands make, and a REGISTER of it with an active login gets no answer |
| LostTickets.AwaitsIff | daemon/command.c:228-545 | the guards of the 300 answer hold if and only if a ticket that arrives is answered 201; then one that does not is answered 504, 505 or not at all |
| LostTickets.FailedLoginChangesIff | daemon/command.c:408-531 | for every LOGIN not answered 200 or 201, whatever the buffer says behind the transfer, the store changes if and only if those guards hold and, where unlink(2) finds its own record, the cookie was known; the new store is given |
| LostTickets.AnotherGoesIff | daemon/command.c:510-513 | a LOGIN removes the file of another cookie if and only if those guards hold, the dot line was wrong and unlink(2) finds that file |
| LostTickets.FailedLoginPassesIff | daemon/command.c:408-531 | after such a LOGIN of a new cookie the CHECK of a service at that moment passes if and only if the guards hold and unlink(2) has not found its record |
| LostTickets.TicketStaysLost | daemon/command.c:413-423 | after such a LOGIN and any run the record names the path of the lost ticket, and no LOGIN of the cookie asks for a ticket |
| LostTickets.RefusedButLoggedIn | daemon/command.c:511-517 | unless unlink(2) finds its record a first LOGIN with a wrong dot line is answered 505 and leaves a record that passes every CHECK of a service at that moment |
| LostTickets.TakenBackIff | daemon/command.c:470-517 | with lines read alone the record is taken back if and only if there is no hashing and neither size nor wrong line has more than four characters, or its path comes in behind six characters |
| LostTickets.WrongLineLogsIn | daemon/command.c:508-517 | any wrong line of five characters or more that does not end in the path of the cookie leaves a new cookie, answered 505, that passes at once, with hashing or without |
| LostTickets.WrongLineTakesAnother | daemon/command.c:508-517 | a wrong line of six characters and the path of another stored cookie removes that cookie, with hashing or without |
| Monster.Process.EatCookie | daemon/monster.c:546-603 | a record stays if and only if it is neither past the hard timeout nor idle too long, and live or not yet logged out too long; what goes is counted; the time and state returned are those of the last record that stayed |
| Monster.Process.VisitOne | daemon/monster.c:488-542 | one directory entry: the store and the line for another daemon as specified, and both counters still tell what has gone |
| Monster.Process.DoDir | daemon/monster.c:471-544 | the loop over a directory changes the store and sends lines as the functions Sweep and Lines say, and keeps the counters right |
| Monster.Process.OnePass | daemon/monster.c:411-438 | over all directories, login_gone and service_gone end as the numbers of records and bindings removed, and the lines sent are those of AllLines |
| Monster.Pass.SweepIsSwept | daemon/monster.c:471-544 | without chains, any order of the names leaves the store that is told without an order |
| Monster.Pass.OrderFree | daemon/monster.c:471-544 | the order of the directory does not matter if and only if there is no chain |
| Monster.WellNamedOrderFree | daemon/monster.c:471-544 | where service cookies are bound to "cosign=" names the order of the directory does not matter |
| Monster.WellNamedKept | daemon/command.c:806-897 | every command but a REGISTER with another name keeps the bindings on "cosign=" names |
| Monster.ChainIsReachable | daemon/command.c:806-897 | five commands of a CGI lead from the empty store to one in which the order of the directory matters |
| Monster.Pass.NothingStale | daemon/monster.c:471-603 | afterwards a visited record is there if and only if it meets the three ages, no record that meets them is gone, and every visited service cookie names a file that is there and meets them if it is a record |
| Monster.Pass.OnlyUnusableGo | daemon/monster.c:34-38 | with idle_cache at least idle plus grey time, no CHECK would accept a record removed before its hard timeout |
| Monster.LoginsHavePathsKept | daemon/monster.c:523-527 | no command writes a binding that would make the sweep exit |
| Monster.HashDirs | daemon/monster.c:411-438 | the loops go through exactly the directories whose characters are all of the 64 |
| Monster.PassCleans | daemon/monster.c:411-544 | a pass over all directories, each listed as the pass finds it, leaves only login cookies that meet the three ages and no service cookie without a usable login, and takes no record that meets them and no service cookie of one, given names with directories and no chain |
| Monster.CleanAfterAnyLife | daemon/monster.c:411-544 | from the empty store, after any commands that register with "cosign=" logins and any turns of sweeps, one whole pass leaves only login cookies that meet the three ages and no service cookie without a usable login, and takes nothing that meets them |
| Telling.YoungIsToldIff | daemon/monster.c:496-516 | a record that stays is told of if and only if it has been touched after the last time, and with its own time on every line |
| Telling.AllTrueIff | daemon/monster.c:496-516 | the lines of a directory tell each named record its own time if and only if no record that goes, or is gone, comes behind one that stays and has been touched since the last time, at another time |
| Telling.OverComesBack | daemon/monster.c:496-516 | when there is such an entry, the login of that name at the daemon that is told, live and idle beyond the grey window, is in use again if the other was touched less than idle seconds ago |
| Telling.PassDelivers | daemon/monster.c:411-467 | a whole pass that visits a record that stays, touched since the last time, tells the other daemon its time, as GreyWindow.ExchangeDelivers asks for |
| Replication.PrimaryTells | daemon/pusher.c:432-472 | what a mirrored command does to users, addresses, factors, logged-out bits and bindings is what the lines it pushes say |
| Replication.LinesAreOk | daemon/pusher.c:432-472 | in a store whose names have directories, and with the words intact behind a ticket, every line that is pushed has the words, paths and directories that the other end asks for |
| Replication.LoginTold | daemon/command.c:451-460 | a LOGIN is told in full if and only if the words pushed, behind a ticket those in the buffer, are words, name its cookie, address and user, and the factor among them alone brings all the news |
| Replication.CarriedIff | daemon/command.c:451-460 | without a ticket, or with the words intact behind it, that is so if and only if all factors but the first were known |
| Replication.TicketTold | daemon/command.c:530-534 | with a ticket whose size and dot line were read alone a LOGIN is told in full if and only if the ticket has less than ten thousand characters and all factors but the first were known |
| Replication.RegisterTold | daemon/command.c:885-890 | a REGISTER is told if and only if it does not come, with good names, to a live record idle beyond the grey window |
| Replication.CheckTold | daemon/command.c:1083-1145 | a CHECK or REKEY is told if and only if it comes neither to a live record idle beyond the grey window nor, by protocol, prefix, length and path, to the renaming |
| Replication.RetrTold | daemon/command.c:1223-1303 | a RETR is told, proxy cookies included, if and only if it does not come to a live record idle beyond the grey window |
| Replication.ReplicaFollows | daemon/command.c:806-897 | a daemon that is given a forwarded line forwards nothing, and changes as the line says if and only if the line is not a REGISTER that comes to a live record idle beyond the grey window, or within it with a service name that is new there |
| Replication.ReplicatedIsSilent | daemon/pusher.c:50-84 | no command on a connection that said DAEMON is ever forwarded |
| Replication.ReplicasAgree | daemon/pusher.c:432-472 | stores that agree still agree after any mirrored run and the replay of its lines, none a REGISTER hindered by idleness at the replica, mixed with the replica's own harmless commands |
| GreyWindow.StepChained | daemon/command.c:649-660 | whatever command runs at whatever daemon, all times are times of touches at most an idle period apart in a chain, unless a LOGIN refreshes a record more than that old |
| GreyWindow.InUseMeansNotOut | daemon/command.c:1083-1106 | a cookie in use at one daemon is at worst in the grey window at every other, once touches older than grey_time are delivered |
| GreyWindow.TimeEstablishes | daemon/command.c:649-660 | a TIME that lists every touch a grey period old delivers them all at its daemon |
| GreyWindow.ExchangeDelivers | daemon/monster.c:496-516 | over any run of less than a grey period in which each daemon is told the time of the cookie at each other where it is later, every touch a grey period old has reached every daemon |
| GreyWindow.NoIdleLogoutWhileInUse | daemon/command.c:860-872 | after any run, no command logs out for idleness a login that was touched at another daemon less than idle seconds ago, and no CHECK that comes to it or REGISTER of it is answered 4xx |
| GreyWindow.StaysLiveWhileInUse | daemon/command.c:1083-1106 | over every run of any commands at any daemons, with touches delivered within grey_time and the cookie in use somewhere at each step, nobody logging it out and no LOGIN of a record more than idle seconds old, the record stays live at every daemon |
| GreyWindow.OnlyIdlenessKills | daemon/command.c:1083-1106 | apart from LOGOUT a live record dies only past idle plus grey time |
| GreyWindow.LoginBreaksIff | daemon/command.c:293-300 | behind a successful LOGIN at one of two daemons that last heard of the cookie together, some run that keeps every other condition ends with the cookie in use at the one and logged out for idleness by the other if and only if the record was more than idle seconds old, for idle periods of more than one second |
| GreyWindow.LoginAloneBreaksIff | daemon/command.c:293-300 | with no command behind the LOGIN there is such a moment if and only if the record was more than idle and more than grey seconds old |
| GreyWindow.RefreshBreaksIt | daemon/command.c:293-300 | every LOGIN of a record more than idle seconds old is followed by such a run, at the end of which every CHECK at the other daemon is answered 431 |
| ServerList.Conn.Ask | filters/common/connect.c:525-548 | one turn of a loop: asked in its round only, closed after ERROR, open otherwise |
| ServerList.Servers.Round | filters/common/connect.c:524-580 | a loop stops at the first definite answer of its round, with the connections and the retry flag right up to there |
| ServerList.Servers.MoveToFront | filters/common/connect.c:587-593 | the pointer surgery puts the answering server first and leaves a well-formed list of the others in their order |
| ServerList.Servers.CheckCookie | filters/common/connect.c:514-619 | OK comes back if and only if that is the first settling answer, of the open connections in their order or else of the new ones; RETRY if and only if that is logged out, or there is none and someone says retry; the questions put, the connections left open and the new list are those of that answer |
| ServerList.Servers.ChooseConn | cgi/network.c:87-162 | the CGI's polling asks the same servers, returns 0 if and only if the first settling answer is OK, and leaves the list as it is |
| ServerList.DecidesOnce | filters/common/connect.c:524-580 | there is exactly one place where the asking can stop |
| ServerList.ErrorIff | filters/common/connect.c:582-585 | ERROR comes back if and only if no server that is reached says OK, logged out or retry |
| ServerList.VerdictIff | filters/common/connect.c:524-619 | OK is the verdict if and only if it is the first settling answer, RETRY if and only if that is logged out, or there is none and someone says retry |
| ServerList.OneOkSuffices | filters/common/connect.c:524-600 | where no server says logged out, the verdict is OK if and only if some server that can be reached says OK, wherever it stands in the list |
| ServerList.OpenIff | filters/common/connect.c:524-580 | a connection is open afterwards if and only if the last answer on it was no error, or it was open and not asked |
| ServerList.AskedAtMostTwice | filters/common/connect.c:524-580 | no server is asked more than twice, and twice only after its open connection failed |
| ServerList.ToFrontKeeps | filters/common/connect.c:587-593 | the new list is a permutation, and any two servers other than the first keep their order |
| ServerList.AnswererIsOpen | filters/common/connect.c:587-593 | the server now in front has an open connection |
| ServerList.FrontSuffices | filters/common/connect.c:524-549 | while it goes on answering, it alone is asked |
| Netcheck.WithSuffix | filters/common/connect.c:164-184 | the suffix test holds exactly for the factor followed by the suffix, the suffix not occurring earlier |
| Netcheck.Require | filters/common/connect.c:158-196 | the nested loops find the first word that decides about each required factor |
| Netcheck.MetIff | filters/common/connect.c:159-196 | the requirement is met if and only if each required factor is |
| Netcheck.MeetsIff | filters/common/connect.c:159-190 | a factor is met if and only if some word is the factor, or the factor with the suffix where that is allowed; where it is not, no earlier word may be that |
| Netcheck.MeetsPlainly | filters/common/connect.c:159-190 | where no word is the factor in disguise, as without a configured suffix, a factor is met if and only if it is on the list |
| Netcheck.FactorLine | filters/common/connect.c:198-214 | the factor line is the joined list, refused exactly when it does not fit |
| Netcheck.NetcheckCookie | filters/common/connect.c:67-243 | every branch of the reading of a reply does what the function Netcheck says |
| Netcheck.FilterSeesTheRecord | daemon/command.c:1147-1150 | from a passed CHECK or REKEY the filter takes address, user, realm and the full factor list of the record, and the new cookie as last word, and accepts exactly if the required factors are among them |
| Netcheck.FilterSeesTheFirstFactor | daemon/command.c:1151-1157 | with a protocol without factors the filter takes the first address, the user and the first factor of the record, and requires nothing |
| Netcheck.GivesUpIff | daemon/command.c:1068-1106 | from the reply to a CHECK the filter takes logged out if and only if the login is dead or beyond the grey window, or the question was wrong |
| Netcheck.GreyIsRetried | daemon/command.c:1083-1091 | from the reply to a CHECK in the grey window it takes retry |
| Netcheck.OkIff | filters/common/connect.c:97-243 | a reply is OK if and only if it begins with 2, has four words that fit the fields, meets every required factor before the new cookie, and ends in a "cosign-" name if one was asked for |
| FilterCache.Filter.HasAll | filters/common/cookiefs.c:127-142 | the nested loops accept exactly if every required factor is on the cached line |
| FilterCache.Filter.CookieValid | filters/common/cookiefs.c:43-317 | OK comes back if and only if an entry of the cookie no more than 60 seconds old has the right address, if that is always checked, and in version 2 every required factor, or the answer confirms the address, user and realm; the cache changes as the function Call says |
| FilterCache.OkIff | filters/common/cookiefs.c:88-313 | for every cache and call, the second turn after a clash of names included, OK is told by the ages, addresses, owners, factors and names alone |
| FilterCache.AddressIsChecked | filters/common/cookiefs.c:89-95 | with IPCHECK_ALWAYS every OK is to the address on the recent entry used or in the answer, with IPCHECK_INITIAL and no file to that in the answer |
| FilterCache.KeptIff | filters/common/cookiefs.c:175-313 | after an OK the cache is the same, has the entry touched if the answer repeats it, or else has the answer stored under the new name if there is one |
| FilterCache.RetryIff | filters/common/cookiefs.c:155-222 | RETRY comes back if and only if no entry will do and the servers say so, or say OK for another address that matters |
| CacheFile.ReadScookie | filters/common/sparse.c:35-105 | reading a file line by line with snet_getline gives what its lines say, in any chunks |
| CacheFile.FieldsRead | filters/common/sparse.c:60-100 | lines with the letters i, p, r and f set address, user, realm and factors |
| CacheFile.CacheRoundTrip | filters/common/cookiefs.c:266-277 | what the filter prints is read back as the stored answer, but for versions other than 2 read as 0 and factors kept for protocols that have them |
| FilterCache.CallKeepsOwners | filters/common/cookiefs.c:185-197 | a call changes user and realm of no cache file, given that a rekeyed name is new |
| FilterCache.EnforcedIff | filters/common/cookiefs.c:88-142 | for every cache entry and time: no call is answered OK from it, without an OK of a server, unless its required factors are all on the cached line, if and only if the entry is of version 2 or older than 60 seconds |
| FilterCache.Version3Unchecked | filters/common/cookiefs.c:88-142 | an answer of version 3 stored up to 60 seconds ago is given out as OK whatever factors are required, without asking a server |
| FilterCache.RepeatedIsTouchedIff | filters/common/cookiefs.c:118-213 | a recent entry of version 2 that lacks a required factor and is repeated by the servers is touched if and only if its line has at most one factor; else it is stored again |
| FilterRaces.StepKeepsOwners | filters/common/cookiefs.c:292-307 | no look, answer or commit of any process, between any others, changes an owner or invalidates what another process relies on |
| FilterRaces.OwnersNeverChange | filters/common/cookiefs.c:185-197 | under every interleaving of any number of processes a cache file keeps its user and realm for ever |
| FilterRaces.NewNamesKeepOwners | filters/common/cookiefs.c:185-197 | the same when rekeyed names are only known to be new as the daemon answers, whatever happens up to the commit |
| FilterRaces.OldNameChangesOwner | filters/common/cookiefs.c:292-298 | a whole call that is given a name that is not new hands a file over to another owner if and only if the name is that of another owner |
| FilterRaces.LoneCall | filters/common/cookiefs.c:43-317 | a process with no others between its steps changes the cache and answers as the function Call says |
| Staleness.OverNeverPasses | daemon/command.c:1059-1106 | once the login is dead or gone no CHECK of the service cookie passes |
| Staleness.NetcheckIsFaithful | filters/common/connect.c:67-243 | an answer that netcheck_cookie makes of the reply of the daemon is OK only if the daemon passed the CHECK, and names the new cookie that the daemon made |
| Staleness.StepOver | daemon/command.c:678-731 | no command, sweep or filter step ends that state unless a name is created anew |
| Staleness.StepWaning | filters/common/cookiefs.c:88-165 | no step lets a cached answer about the cookie become younger than the LOGOUT and one commit delay |
| Staleness.StaleForAMinute | filters/common/cookiefs.c:88-213 | after any run, a LOGOUT and any run that does not create the cookies anew, no call begun more than 60 seconds and one commit delay later is answered OK, at any web server, for any service cookie that is bound to the login or was rekeyed or swept away before |
| Staleness.BoundIsMet | filters/common/cookiefs.c:88-213 | for every delay there is a run with an OK at exactly that time |
| LoopChecker.Check | cgi/cgi.c:95-149 | the three branches of loop_checker, with the size tests, send what the function Checked says |
| LoopChecker.RoundTrip | cgi/cgi.c:460-478 | the time and the count printed into a cookie are the ones taken from it at the next request, negative ones included |
| LoopChecker.Turn | cgi/cgi.c:95-149 | a redirect either counts one up in a window that has some left or opens a new one at the present |
| LoopChecker.OneRequest | cgi/cgi.c:95-149 | a request with an ordinary cookie: the login screen after 86400 seconds, a new window after 30, one more of ten in it, and then the loop page |
| LoopChecker.CookiesAreLimited | cgi/cgi.c:455-478 | requests that carry the state in the browser's cookie are runs of the limiter without texts |
| LoopChecker.CookiesAreMachine | cgi/cgi.c:455-478 | for names of 120 to 239 characters and times of up to eleven digits, requests that carry the state in the printed cookie do just what a machine of a start and a count does |
| LoopChecker.TenPerWindow | cgi/cgi.c:123-136 | over any run at most 10 redirects share a window start |
| LoopChecker.WindowsApart | cgi/cgi.c:108-121 | two redirects share their window or the later window begins more than 30 seconds after the earlier |
| LoopChecker.TwentyInThirtySeconds | cgi/cgi.c:95-149 | over any run with a clock that does not go back any 30 seconds hold at most 20 redirects |
| LoopChecker.TwentyIsReached | cgi/cgi.c:95-149 | for every such name and time there are requests, with the printed cookies, of which 20 within two seconds are redirected |

## Left out

- Laws.LogoutIsFinal: does not model two commands interleaved; f_login reads at daemon/command.c:293 and renames at 435, and each command is one step here.
- Ticket.RoundTrip: for tickets shorter than 2^31 characters, since the size is printed and read as an int.
- Snet.Reader.GetLine: claims nothing about a reader after it has handed out a final unterminated line.
- Monster.PassCleans: for stores without chains of service cookies; Monster.Pass.OrderFree says why. A name that comes in during a pass is not in its listings.
- Replication.ReplicasAgree: leaves out runs with REKEY, idle logouts, failed ticket transfers, words overwritten behind a ticket and factors that are not forwarded, and replays in which a REGISTER comes to a record idle at the replica; times and ticket places are not compared.
- GreyWindow.StaysLiveWhileInUse: takes the delivery of touches by TIME, and that no TIME tells a time that is no touch, as hypotheses; GreyWindow.ExchangeDelivers and Telling.AllTrueIff say when they hold.
- Monster.Process.DoDir: one other daemon that stays connected; failing writes and the replies to TIME (daemon/monster.c:334-467) are not modelled.
- Telling.AllTrueIff: for one directory; do_dir starts each with no time read.
- Answers.TimeDelivers: for live logins; a dead one stays dead by Laws.StepPersists.
- Staleness.StaleForAMinute: one daemon and one clock; several daemons add the delay of replication.
- FilterCache.Filter.CookieValid: the ticket path, the temporary file and failing system calls are not modelled; two turns of the retry loop are given answers.
- Laws.StepPersists: for LOGIN lines cut into words, as they come, and rekeyed names that are new to the store.
- FilterRaces.OwnersNeverChange: for rekeyed names that no file has when they are stored; FilterRaces.NewNamesKeepOwners asks it at the daemon's answer only, and that no browser sends the name before it is stored.
- Netcheck.FilterSeesTheRecord: for protocols with factors and records whose texts fit the filter's buffers.
- CacheFile.ReadScookie: for files whose last line has its newline, as every printed one has; the ticket path is not kept.
- RecordFile.RecordRoundTrip: MAXPATHLEN is taken as 4096; a text that has no room in its field ends the reading as an overrun, since what the fields behind it then hold is not defined.
- Cosignd.Daemon.Replicate: the comparison of host names without case is a parameter.
- TLS, STARTTLS, the command tables and the choice of a handler, signals, select, fork, the forwarding loop's connections, and syslog.
- The retrieval of tickets and proxy cookies by the filter, apart from the transfer protocol they share with LOGIN.
- The authorisation tables (common/conf.c): a predicate.
- Quotes and backslashes in acav_parse, which no caller turns on; snet_writeftv beyond "%d" and "%s".
- Disk errors, hash directories other than those of mkhashdirs and those of the filter's cache, and ticket files as such; ticket paths are taken to be fresh and not empty.
- Ticket.Receive: says nothing of what stays unread after a transfer that was dropped or refused.
- LineBuffer.AfterLines: for lines read alone into the buffer, which with TLS are records of their own; for other pieces LineBuffer.GetLineOver says which words stay, and the laws hold whatever the others become.
- LineBuffer.Gone: of the spellings of a path, the one that mkcookiepath makes; the laws take any file for the one found.
- Kerberos, MySQL and external factors, web server modules, templates and the rest of the user interface.
