# A verified model of the stateful core of pve-freq

pve-freq is a fleet dashboard. Most of it wraps SSH and HTTP; this project models the parts that keep state or
transform data by themselves, and proves what holds for them over all inputs and all runs.

| file | what it models |
|---|---|
| `Common.dfy`, `StableSort.dfy` | shared values and functions; a sort that keeps equal elements in order |
| `Bytes.dfy` | octets, exclusive or, network byte order |
| `WebSocket.dfy` | websocket frames as values, their octets, a reader of one frame (sections 5.2 and 5.3 of RFC 6455) |
| `WebSocketIO.dfy` | the socket, the exact-read loop, the frame reader on socket and buffer, the writers |
| `TerminalBridge.dfy` | the loop between browser and terminal, with the iDRAC prompt wait |
| `TerminalSessions.dfy` | the locked store of terminal sessions and all interleavings of its users |
| `IdracSpacing.dfy` | the shared lock and time stamp that keep iDRAC sessions apart |
| `RateLimit.dfy`, `RateCeiling.dfy` | the login limiter against the full history; many login handlers at once |
| `AuthSessions.dfy` | login sessions with lazy expiry against a table that expires eagerly |
| `Toml.dfy`, `HostRegistry.dfy` | a reader for the TOML the registry uses; the registry's printer, appender and loader |
| `HostDedup.dfy` | de-duplication of hosts, and the validator's duplicate report |
| `AnsiText.dfy`, `BoxLayout.dfy` | stripping and cutting coloured text; the lines of a terminal box |
| `Lines.dfy`, `LineEditor.dfy`, `SectionEditor.dfy` | line splitting and stripping; the editor of the `[dashboard]` section |
| `VaultFile.dfy` | the vault's text: entries on lines, without escaping; every read and write goes through it |
| `Credentials.dfy`, `CredentialNames.dfy`, `CredentialLaws.dfy` | scoped credentials in the vault; the names they have there; what holds of one request |
| `CredentialRuns.dfy`, `SharedSlugs.dfy`, `SlugLeaks.dfy` | requests on credentials side by side, lock by lock; users who share a slug; runs that show what they need |
| `ConfigCache.dfy` | the configuration cache |
| `HealthState.dfy`, `HealthScore.dfy` | probe states and their rollup; the fleet score |

Code that works step by step is a method or a class proved against a function of its inputs or old state; the theorems
are lemmas about those functions, or about transition systems whose steps are those functions. Time is a real number.
Descriptors, session tokens and generated ids are fresh values. The clock, the network, the terminal, the file system
and the outcome of vault writes are parameters.

`dafny verify dfyconfig.toml` verifies everything.

Where the code does not do what its comments or names suggest, the model follows the code, and a theorem says exactly
when the two agree:

- A registry whose strings hold a control character other than tab is written without complaint and then loads as no
  hosts at all (`HostRegistry.RoundTrip`, `HostRegistry.WrittenLoads`).
- The vault's lines are written without escaping. What is written is found again just when its place and value are clean
  (`VaultFile.SetThenGet`); a secret with a second line or with white space at its end is cut down to its first line
  without that white space, so a saved credential is revealed unchanged just when its id is plain and its secret clean
  (`CredentialLaws.SetThenReveal`).
- Line ends and bars in what a request brings in can make its lines read as entries of their own. What any write does to
  any place is stated exactly (`VaultFile.LookupAfterSet`): a request changes a place outside its credential just when
  one of its lines reads as an entry there that wins the lookup (`CredentialLaws.RequestReachesExactly`), and it leaves
  every place of every vault alone just when its lines read as nothing outside its credential
  (`CredentialLaws.ConfinedExactly`). A contained request, with a plain id and a secret whose further lines read as
  nothing, does. Without either half of that, any value can be put at any vacant place, or at one that sorts behind the
  caller's, through the secret or through the id (`CredentialLaws.ContainmentIsNeeded`,
  `CredentialLaws.PlainIdIsNeeded`); with an id that holds a bar but no line end, at vacant places only
  (`CredentialLaws.BarDisturbsOnlyVacant`).
- The lookups and writes of a request on credentials each take the vault's lock for themselves, so requests interleave.
  In every interleaving of contained requests, whatever writes the vault loses, roles are kept, users do not change the
  credentials of users with other slugs, and a secret is shown only to the user who typed it if nobody else has that
  user's slug (`CredentialRuns.RolesGuard`, `CredentialRuns.NoInterference`, `CredentialRuns.RevealedSecretIsOwn`).
- Users who share a slug do not change each other's credentials as long as no two of them have requests for the same
  credential in flight (`SharedSlugs.TurnsDoNotInterfere`), and are shown only what they typed themselves if, moreover,
  the vault loses no half of a request and the credential is not saved while it is being deleted
  (`SharedSlugs.TurnsKeepSecretsApart`). Each of the three is needed: for any two users with one slug there is a run that
  breaks only that one and shows the second user the first one's secret (`SlugLeaks.RaceLeaks`, `SlugLeaks.HalfLostLeaks`,
  `SlugLeaks.SaveInDeleteLeaks`).
- A vault file that cannot be decrypted is taken for an empty one, so a write at such a moment leaves nothing but what it
  writes itself (`VaultFile.FailedReadForgets`).
- The configuration cache can return an old configuration for up to 5 s when the files change between being read and
  being stamped, and only then (`ConfigCache.FreshExactlyIfCoherent`, `ConfigCache.EditWhileLoading`).
- The pong writer produces a readable frame only below 126 bytes; nothing in the repository calls it
  (`WebSocketIO.PongReadsBack`).
- A buffer with a single octet is "no data" while a socket with a single octet is the end (`WebSocketIO.PathsAgree`).
- Of the frames that the HTTP layer has read ahead, only the first reaches the terminal, and if it has read ahead into the
  middle of a frame the socket is read from there on (`TerminalBridge.LeftoverLosesTheRest`,
  `TerminalBridge.CutLeftoverMisleads`). If whole frames were read ahead, delivery from end to end holds just when none of
  them but the first had anything to deliver (`TerminalBridge.BridgeDelivers`).
- The remaining lifetime reported for a session can be up to a second too long (`AuthSessions.TtlIsExact`).
- A purge also counts sessions that had expired unnoticed (`AuthSessions.LazyEqualsEager`).
- The limit of 20 terminal sessions and the limits on failed logins can be exceeded by requests in flight, by exactly
  as many as there are beyond one (`TerminalSessions.BoundIsReached`, `RateCeiling.CeilingIsReached`).
- The descriptor of a terminal whose process could not be started is never closed (`TerminalSessions.RunKeepsOwnership`).
- An iDRAC section that raises leaves no time stamp: what comes next keeps its gap to a section just when that section
  was stamped (`IdracSpacing.GapExactlyIfStamped`).
- A clock that runs backwards, or a check that has read it long before its turn, can make the login limiter forget
  failures, never invent them; which failures, and when that
  lets a login through, is stated exactly (`RateLimit.ForgottenExactly`, `RateLimit.CheckIsLenientExactly`,
  `RateLimit.ClockSetBack`).
- Truncation agrees with stripping at every width just for texts in which every escape character begins a colour escape,
  or the first that does not is the last visible character (`AnsiText.AgreesExactlyIfSettled`).
- Box lines have the width of the terminal just when it is at least 2 (`BoxLayout.LinesFillTheTerminal`).
- Editing the trusted proxies keeps every line of another key just when no line of the section begins with the key's name
  without being for that key (`SectionEditor.OtherKeysSurviveExactly`, `SectionEditor.ExtraKeyIsLost`), and of an old
  setting that goes on over several lines it replaces only the first (`SectionEditor.ContinuationStays`). A line that
  looks like a header, such as `[1, 2]` in an array of several lines, ends the section for it, and an old setting behind
  that line stays beside the new one (`SectionEditor.HeaderLookAlikeEndsSection`, `SectionEditor.NestedArrayHidesSetting`).

## Model

| member | source | states |
|---|---|---|
| WebSocket.ParseExact | freq/api/terminal.py:776-826 | reading returns frame f and rest exactly when the octets are f on the wire followed by rest; all length forms, masked or not, any FIN bits, any opcode but close |
| WebSocket.ParseExtends | freq/api/terminal.py:776-826 | octets behind a complete frame never change how it is read |
| WebSocket.MaskCancels | freq/api/terminal.py:816-820 | unmasking is the inverse of masking (section 5.3 of RFC 6455) |
| Bytes.XorIsBitwise | freq/api/terminal.py:819-819 | a bit of the combined octet is set just when the two octets differ in it |
| Bytes.FirstCountsMost | freq/api/terminal.py:797-804 | lengths are read most significant octet first |
| WebSocket.MaskedFrameReads | freq/api/terminal.py:806-820 | each bit of a masked frame's payload is the bit on the wire, turned over where the octet of the key has a one; the octets stand behind header, length and key |
| WebSocket.OpcodesMean | freq/api/terminal.py:778-824 | opcode 8 ends the conversation, 9 brings nothing, every other one its payload |
| WebSocket.ServerFrameIsMinimal | freq/api/terminal.py:739-750 | of all legal frames with a payload the server's is the shortest, and only its length form reaches that length unmasked (section 5.2 of RFC 6455) |
| WebSocket.ServerFrameOctets | freq/api/terminal.py:739-752 | the server's frame octet by octet, in all three length classes |
| WebSocketIO.Socket.Receive | freq/api/terminal.py:834-834 | a socket hands out its stream in pieces of its own choosing, never more than asked for, nothing lost |
| WebSocketIO.ReadExact | freq/api/terminal.py:829-840 | however the stream is cut, exactly n octets are taken if they arrive; otherwise nothing, or the OS error |
| WebSocketIO.ReadFrom | freq/api/terminal.py:785-793 | reads come from the buffer while it holds anything, else from the socket, else fail |
| WebSocketIO.UnmaskInPlace | freq/api/terminal.py:816-820 | the in-place loop computes section 5.3 unmasking of the old contents, bit by bit |
| WebSocketIO.KeystrokeReads | freq/api/terminal.py:768-826 | one keystroke, masked with ones: its lowest bit is turned back |
| WebSocketIO.ParseFrame | freq/api/terminal.py:776-826 | on socket and on buffer the frame reader returns what the frame at the front calls for and consumes exactly that frame |
| WebSocketIO.ParseBody | freq/api/terminal.py:806-826 | the same for masking key and payload once the length is known |
| WebSocketIO.WsRecv | freq/api/terminal.py:755-765 | one call takes exactly one frame off the stream and returns its payload; close, end and cut-off frames end the conversation |
| WebSocketIO.ReceiveFrames | freq/api/terminal.py:755-840 | receiving as many frames as the stream begins with, however it is cut into pieces, gives exactly their unmasked payloads in order (nothing for a ping) and leaves exactly what follows |
| WebSocketIO.WsDecodeFrame | freq/api/terminal.py:768-773 | decodes the frame at the front of a buffer; fewer than two octets are no data |
| WebSocketIO.WsSend | freq/api/terminal.py:737-752 | sends exactly the wire form of one unmasked, unfragmented binary frame |
| WebSocketIO.WsSendPong | freq/api/terminal.py:843-846 | sends the two header octets and the data, or nothing when the length is no octet |
| WebSocketIO.SendDecodes | freq/api/terminal.py:737-826 | what was sent decodes to the data, whatever follows it, in all three length classes |
| WebSocketIO.PathsAgree | freq/api/terminal.py:755-773 | buffer and socket agree just when there are two octets and no OS error strikes inside a frame |
| WebSocketIO.EndsExactly | freq/api/terminal.py:776-840 | the conversation ends at a close frame and where the stream does; an OS error escapes only if it struck inside a frame, and never from a buffer |
| WebSocketIO.PongReadsBack | freq/api/terminal.py:843-846 | a pong reads back as its data just when it has fewer than 126 bytes (no caller in the repository) |
| TerminalBridge.Bridge.WriteToPty | freq/api/terminal.py:669-680 | input is held back before the prompt, written after it, with LF turned into CR for an iDRAC; a refused write loses only that payload |
| TerminalBridge.Bridge.PtyReadable | freq/api/terminal.py:706-726 | output is sent on; the first prompt makes the bridge ready for good and releases everything held back, in order |
| TerminalBridge.PromptIsText | freq/api/terminal.py:713-717 | the prompt is an arrow "->" or, in any case, "/admin" |
| TerminalBridge.Bridge.SockReadable | freq/api/terminal.py:728-734 | one frame is taken off the stream and its payload, unless empty, handed to the terminal |
| TerminalBridge.Bridge.TakeLeftover | freq/api/terminal.py:691-699 | the read-ahead bytes contribute the payload of the frame at their front |
| TerminalBridge.Bridge.Turn | freq/api/terminal.py:701-734 | one turn keeps first-in first-out order and the account of frames taken |
| TerminalBridge.Bridge.Run | freq/api/terminal.py:659-734 | before every turn and at the end, bytes written plus bytes held back are all payloads handed over, in order, and a ready bridge holds nothing back; from each such moment to any later one readiness stays and nothing written is taken back; the stream is exactly the frames taken and the rest |
| TerminalBridge.BridgeDelivers | freq/api/terminal.py:640-840 | end to end, over read-ahead bytes and socket together: if the first m frames sent were read ahead, the bridge has been given the payloads of the frames sent so far, in order, just when none of those m but the first had anything to deliver; it has written what it was given, but for what it holds back |
| TerminalBridge.FramingUnique | freq/api/terminal.py:776-826 | two ways to cut one stream into frames agree as far as both go |
| TerminalBridge.LeftoverLosesTheRest | freq/api/terminal.py:689-699 | what reaches the terminal of the frames read ahead is all they hold just when none behind the first has anything to deliver |
| TerminalBridge.CutLeftoverMisleads | freq/api/terminal.py:640-699 | reading ahead into the middle of a frame can make its rest read as a close frame |
| TerminalSessions.SessionStore.KillSession | freq/api/terminal.py:74-89 | takes a session out and closes its descriptor; nothing if it is gone |
| TerminalSessions.SessionStore.CleanupStale | freq/api/terminal.py:65-71 | kills exactly the sessions idle longer than 900 s at the sampled time |
| TerminalSessions.SessionStore.Close | freq/api/terminal.py:488-490 | closes a session if it is still there, on request or when its bridge ends |
| TerminalSessions.SessionBound | freq/api/terminal.py:270-464 | in every run of checks, inserts, closes, sweeps and touches with at most k opens between check and insert, the store never exceeds 19 + k sessions |
| TerminalSessions.BoundIsReached | freq/api/terminal.py:270-464 | for every k some run reaches 19 + k |
| TerminalSessions.RunKeepsOwnership | freq/api/terminal.py:65-89 | in every run each descriptor ever inserted is held by one session and open, or by none and closed exactly once; one whose process could not be started is held by none and never closed |
| TerminalSessions.SweepIsExact | freq/api/terminal.py:65-71 | a sweep removes just the sessions idle too long when its time was sampled, all of which still are when it runs |
| TerminalSessions.TouchRenews | freq/api/terminal.py:683-688 | a bridge's turn gives its session 900 s from then on and changes nothing else |
| TerminalSessions.InsertStarts | freq/api/terminal.py:432-464 | a new session has its descriptor and 900 s to live, and no other changes |
| IdracSpacing.Throttle.RunSection | freq/api/hw.py:173-205 | a read opens its session at once if the last stamp is 2 s old, else 2 s after it, a terminal spawn likewise with 10 s, both later only by how late the sleep returns; a section stamps its end if it completes |
| IdracSpacing.RunIsSpaced | freq/api/terminal.py:397-418 | in every run sections never overlap, and each opens at least its own gap (2 s for reads, 10 s for spawns) after every earlier stamp |
| IdracSpacing.NoGapAfterRaise | freq/api/hw.py:173-205 | after any section that raised, the next one of either kind can open before its gap to that section is over |
| IdracSpacing.GapExactlyIfStamped | freq/api/hw.py:173-205 | whatever comes next, in every continuation, keeps its gap to the section that has just ended just when that section was stamped |
| IdracSpacing.SectionIsARun | freq/api/hw.py:173-205 | an undisturbed section is one pass through the phases of the transition system |
| RateLimit.Limiter.CheckRateLimit | freq/api/auth.py:166-189 | the pruned buckets give the answer of the failures remembered: those in the window, since the user's last success, that no later pruning has dropped |
| RateLimit.CheckIsExact | freq/api/auth.py:166-189 | as long as the clock has not run backwards a login may be tried just when the complete history has fewer than 10 failures of its address and fewer than 5 of its user |
| RateLimit.FailuresAreCounted | freq/api/auth.py:159-208 | those are the failures of the last 300 s, for a user those since the last success |
| RateLimit.CheckForgets | freq/api/auth.py:166-189 | a check makes the bucket of its address, and if that passes the one of its user, forget what is 300 s old by its clock, and no other bucket anything |
| RateLimit.CheckIsLenientExactly | freq/api/auth.py:166-189 | whatever the clock does, a check refuses nothing that the history allows, and lets a login through against it just when forgetting brings each count below its limit of which some was not |
| RateLimit.ForgottenExactly | freq/api/auth.py:159-189 | a failure is forgotten just when it counts now and a pruning after it, at a later clock time, dropped it |
| RateLimit.RememberedAndForgotten | freq/api/auth.py:159-208 | remembered and forgotten failures add up to the count over the complete history |
| RateLimit.ClockSetBack | freq/api/auth.py:159-189 | after ten failures, a check 300 s later and a clock set back by a second, the next login is let through |
| RateLimit.Limiter.RecordLoginAttempt | freq/api/auth.py:192-208 | recording keeps both buckets showing exactly what is remembered of the history, a success clearing the failures of its user |
| RateLimit.PruningIsInvisible | freq/api/auth.py:159-163 | pruning at one time changes no count at any later time |
| RateLimit.PruningForgetsExactly | freq/api/auth.py:159-163 | pruning at one time changes what is seen at another just when it drops a failure that is in the window then |
| RateCeiling.RateCeilingHolds | freq/api/auth.py:166-208 | over all interleavings with at most k handlers between check and record, each check pruning and answering from what is remembered at a time it has read before its turn, the failures of the complete history never exceed 9 + k for an address and 4 + k for a user since its last success |
| RateCeiling.CeilingIsReached | freq/api/auth.py:166-208 | for every k some run reaches those numbers |
| AuthSessions.SessionTable.EstablishSession | freq/api/auth.py:303-316 | stores the new session |
| AuthSessions.SessionTable.LookupSession | freq/api/auth.py:331-349 | finds a session unless it is unknown or idle for more than an hour, in which case it is removed; a touch renews it |
| AuthSessions.LookupIsExact | freq/api/auth.py:331-349 | a lookup removes its own session if that has been idle for more than an hour, renews it if touched, and leaves all others alone |
| AuthSessions.SessionTable.LogoutSession | freq/api/auth.py:579-581 | removes the caller's session |
| AuthSessions.LogoutIsExact | freq/api/auth.py:579-581 | a logout takes out the session of its token and no other; without a token it does nothing |
| AuthSessions.LoggedOutForGood | freq/api/auth.py:331-581 | after a logout no lookup at any time finds the session, until its token is issued again |
| AuthSessions.SessionTable.PurgeUserSessions | freq/api/user.py:44-55 | removes all sessions of a user; size before is size after plus the number returned |
| AuthSessions.SessionTable.PurgeOtherSessions | freq/api/auth.py:723-731 | removes all but the caller's own session; size before is size after plus the number returned |
| AuthSessions.LazyEqualsEager | freq/api/auth.py:331-349 | after any history at non-decreasing times every operation is answered as by a table that expires eagerly, but that a purge also counts the expired sessions still in the table |
| AuthSessions.NeverRevived | freq/api/auth.py:339-344 | a missing or expired session is never found again unless its token is issued anew |
| AuthSessions.IdentityIsConstant | freq/api/auth.py:303-349 | user, role, time of issue and CSRF token of a session never change |
| AuthSessions.UntouchedLookup | freq/api/auth.py:341-349 | a lookup without touch extends no session's life |
| AuthSessions.SessionLifetime | freq/api/auth.py:303-349 | a session is found as issued for exactly an hour after login or the last touch |
| AuthSessions.PurgeIsExact | freq/api/auth.py:723-731 | a purge removes precisely the named user's tokens, but the kept one |
| AuthSessions.TtlIsExact | freq/api/auth.py:619-623 | the reported lifetime is right to the second, and a session is alive at its very end just when it has idled whole seconds |
| Toml.ReplacesEscape | freq/core/config.py:919-921 | the two chained replacements equal a character-by-character escape |
| Toml.ValueReadsBack | freq/core/config.py:919-945 | a printed string, number, flag or list reads back, or is rejected for a control character |
| Toml.DocReadsPair | freq/core/config.py:926-945 | a printed line sets its key in the current table and nothing else |
| Toml.EscapesStandFor | freq/core/config.py:876-889 | the escapes of a TOML basic string read as the characters they stand for |
| Toml.KeyTwiceIsError | freq/core/config.py:876-889 | a key that its table has already makes the whole document an error |
| HostRegistry.HostEntry | freq/core/config.py:925-946 | the lines of one host, optional ones left out when empty, zero or managed |
| HostRegistry.EntryRead | freq/core/config.py:925-946 | the entry of a host as text, line by line |
| HostRegistry.HeadersRead | freq/core/config.py:924-965 | the first lines of a rewritten file and of a new one |
| HostRegistry.SaveHosts | freq/core/config.py:914-948 | the whole file: header, then one entry per host in order |
| HostRegistry.AppendHost | freq/core/config.py:951-983 | the appender's own list of lines makes the old contents, or a short header for a new file, followed by the same entry that the writer makes |
| HostRegistry.TableLoads | freq/core/config.py:889-910 | the loader's defaults are the values the printer leaves out |
| HostRegistry.BareTableLoads | freq/core/config.py:889-910 | an empty table is a managed Linux host without a name |
| HostRegistry.OldKeysLoad | freq/core/config.py:898-905 | names are found under the keys of older files if the newer ones are missing or empty |
| HostRegistry.CommasSplit | freq/core/config.py:890-892 | addresses in one text are cut at its commas, empty ones dropped |
| HostRegistry.OtherTypesLoad | freq/core/config.py:889-910 | addresses in one text, a flag as a text or a number, an id as a text |
| HostRegistry.WrittenLoads | freq/core/config.py:876-948 | a written registry loads as its hosts if no string holds a control character other than tab, and as no hosts otherwise |
| HostRegistry.RoundTrip | freq/core/config.py:876-948 | writing then loading is the identity exactly for registries without such characters |
| HostRegistry.SaveThenAppend | freq/core/config.py:914-983 | what the appender makes of a saved file is what saving all hosts with the new one gives, byte for byte |
| HostRegistry.AppendLoads | freq/core/config.py:951-983 | appending adds exactly the new host to what the file loads as, whichever header it has |
| HostDedup.Dedup | freq/core/config.py:485-509 | the loop keeps the first-come hosts and reports duplicates just when there are any |
| HostDedup.ReportDuplicates | freq/core/config.py:563-573 | the validator's loop reports each host whose address or label came before |
| HostDedup.KeepIsSubsequence | freq/core/config.py:489-506 | the kept hosts stand unchanged at increasing places of the input |
| HostDedup.KeptBefore | freq/core/config.py:489-506 | a host is dropped exactly when it collides with an earlier kept one |
| HostDedup.KeepIsDistinct | freq/core/config.py:489-506 | kept hosts differ pairwise in address and label |
| HostDedup.KeepsAllIffDistinct | freq/core/config.py:507-509 | nothing is dropped just when there was no duplicate |
| HostDedup.KeepIsIdempotent | freq/core/config.py:485-509 | de-duplicating twice is de-duplicating once |
| HostDedup.KeepIsMaximal | freq/core/config.py:489-506 | every host collides with, or is, a kept one |
| HostDedup.NoIssuesIffDistinct | freq/core/config.py:563-573 | the validator reports no duplicate just when there is none |
| HostDedup.ValidAfterDedup | freq/core/config.py:485-573 | after de-duplication the validator reports none |
| AnsiText.StripConcat | freq/core/fmt.py:170-175 | stripping works piece by piece for text whose escapes are complete |
| AnsiText.SkipEscape | freq/core/fmt.py:193-198 | the inner loop finds the end of the escape |
| AnsiText.Truncate | freq/core/fmt.py:183-204 | the scanning loop computes the truncation function |
| AnsiText.TruncateAgreesWithStrip | freq/core/fmt.py:170-204 | what is visible after truncation is the first w characters of what was visible, for every width |
| AnsiText.AgreesExactlyIfSettled | freq/core/fmt.py:170-204 | for all texts, truncation agrees with stripping at every width just when every escape character begins a colour escape or the first that does not is the last visible character |
| AnsiText.UnsettledOverflows | freq/core/fmt.py:192-198 | any other text shows too much at the width that takes in its first other escape |
| AnsiText.ColourEscapesAre | freq/core/fmt.py:170-175 | an escape, a bracket and an "m" are invisible just when all between is digits or semicolons |
| AnsiText.CutEndsPlain | freq/core/fmt.py:183-204 | text that is cut ends with all colours off |
| BoxLayout.BorderedLine | freq/core/fmt.py:276-285 | the line shows its content cut or padded to the inner width, between two borders |
| BoxLayout.Line | freq/core/fmt.py:236-247 | the same with an indent |
| BoxLayout.Divider | freq/core/fmt.py:255-269 | a rule, or a rule with the title centred and cut to fit |
| BoxLayout.Header | freq/core/fmt.py:210-227 | breadcrumb and title, cut or padded, between two rules |
| BoxLayout.TableRow | freq/core/fmt.py:380-387 | cells padded to their widths, in one bordered line |
| BoxLayout.LinesFillTheTerminal | freq/core/fmt.py:210-285 | each such line is as wide as the terminal just when that is at least 2 wide |
| BoxLayout.BoxesLook | freq/core/fmt.py:86-151 | boxed text and rules as they look, in ASCII and in Unicode |
| BoxLayout.TitlesLook | freq/core/fmt.py:255-269 | a title in the middle of its rule, the odd character to its right, cut if it is too long |
| BoxLayout.RowsLook | freq/core/fmt.py:380-387 | two cells of a row, each filled up to its width, with two spaces between them |
| LineEditor.Locate | freq/api/cert_lifecycle.py:159-171 | finds the first section line and the header or end behind it |
| LineEditor.RewriteBody | freq/api/cert_lifecycle.py:178-188 | the first old setting is replaced, further ones dropped, a missing one added at the end |
| SectionEditor.NormalizeCidrs | freq/api/cert_lifecycle.py:129-142 | the loop over the addresses, stopping at the first that is none |
| SectionEditor.NormalizedAreNetworks | freq/api/cert_lifecycle.py:129-142 | the result is exactly the networks of the values that are not blank |
| SectionEditor.NormalizedDiffer | freq/api/cert_lifecycle.py:140-141 | each network appears once |
| SectionEditor.NormalizedInOrder | freq/api/cert_lifecycle.py:129-142 | networks stand in the order in which the values first name them |
| SectionEditor.RefusedExactly | freq/api/cert_lifecycle.py:131-138 | a list is refused just when one of its values is no address, and then for the first of these |
| SectionEditor.EditLines | freq/api/cert_lifecycle.py:159-192 | a missing section is added at the end, behind a separator line if need be; otherwise only the body of the first one changes |
| SectionEditor.WriteSetting | freq/api/cert_lifecycle.py:149-195 | the file written is the edit of the file read |
| SectionEditor.LastWriteWins | freq/api/cert_lifecycle.py:149-195 | writing one setting and then another gives the file of the second alone, for every file |
| SectionEditor.WritingCidrs | freq/api/cert_lifecycle.py:145-195 | the same for all lists of values, as they are quoted; and writing a list twice is writing it once |
| SectionEditor.JsonCharMeans | freq/api/cert_lifecycle.py:146-146 | every character is quoted as something that stands for it in JSON (section 7 of RFC 8259), beyond 16 bits as two surrogates |
| SectionEditor.SettingHolds | freq/api/cert_lifecycle.py:145-157 | for addresses of printable ASCII the setting line, read as TOML, gives the key exactly the list written, in order |
| SectionEditor.WrittenHolds | freq/api/cert_lifecycle.py:145-195 | and that line is the one setting in the section of the written file |
| SectionEditor.EmptyFileGetsSection | freq/api/cert_lifecycle.py:149-195 | a file with nothing in it gets just the section and the setting |
| SectionEditor.ExactlyOneSetting | freq/api/cert_lifecycle.py:177-189 | afterwards the first section has exactly one such line, the one written |
| SectionEditor.OtherLinesStay | freq/api/cert_lifecycle.py:173-193 | all other lines keep text and order, up to a separator line and white space at the end of the file |
| SectionEditor.OtherKeysSurviveExactly | freq/api/cert_lifecycle.py:180-193 | in the written file every non-blank line of another key of the section survives just when no line of the section begins with the key's name without being for that key |
| SectionEditor.ExtraKeyIsLost | freq/api/cert_lifecycle.py:180-186 | the key `trusted_proxy_cidrs_extra` is lost |
| SectionEditor.ContinuationStays | freq/api/cert_lifecycle.py:177-189 | of an old setting over several lines only the first is replaced, the others stay behind the new one |
| SectionEditor.HeaderLookAlikeEndsSection | freq/api/cert_lifecycle.py:165-189 | a line of the section that looks like a header ends it: the setting goes in front of it, everything behind it stays |
| SectionEditor.NestedArrayHidesSetting | freq/api/cert_lifecycle.py:165-189 | the line `[1, 2]` of an array makes a second setting beside the old one |
| Lines.WrittenReadsBack | freq/api/cert_lifecycle.py:152-193 | lines joined, stripped and written read back as those lines without white space at the end |
| Lines.BreaksAre | freq/api/cert_lifecycle.py:156-156 | the line boundaries of `splitlines` |
| Lines.SpacesAre | freq/api/cert_lifecycle.py:162-193 | the white space of `strip` |
| VaultFile.ParseEntries | freq/modules/vault.py:163-173 | the loop over the lines: stripped, comments and lines with fewer than two bars skipped |
| VaultFile.SerializeEntries | freq/modules/vault.py:176-181 | a comment, then one line for each entry, sorted by host and key |
| VaultFile.OneEntryIsWritten | freq/modules/vault.py:176-181 | the text of a vault with one entry |
| VaultFile.ReadsBack | freq/modules/vault.py:163-181 | entries read back as they were written, in sorted order, just when all of them are clean: no line end, no bar in host or key, no white space at the end, and a host that does not look like a comment |
| VaultFile.VaultGet | freq/modules/vault.py:225-248 | the value of the first entry at the place, else of the first at the default place |
| VaultFile.DefaultIsLastResort | freq/modules/vault.py:236-248 | the default place counts only where nothing stands at the place itself, and "" is the answer where nothing stands at either |
| VaultFile.FirstIsFound | freq/modules/vault.py:236-239 | of several entries at a place the first one is found |
| VaultFile.VaultSet | freq/modules/vault.py:200-222 | replaces all entries at a place by one, through the text; a text that cannot be decrypted counts as empty, and a write that fails changes nothing |
| VaultFile.VaultDelete | freq/modules/vault.py:251-265 | removes all entries at a place, and says whether there were any |
| VaultFile.LookupAfterSet | freq/modules/vault.py:163-222 | the exact effect of any write, with any host, key and value, on every place: what its lines read as there is found if nothing else is there or the place sorts behind the written one |
| VaultFile.LookupAfterCleanSet | freq/modules/vault.py:163-222 | at a clean place a write leaves the first line of the value; elsewhere only the further lines of the value count |
| VaultFile.FailedReadForgets | freq/modules/vault.py:148-217 | a write whose reading of the vault failed leaves nothing but what its own lines read as |
| VaultFile.SetThenGet | freq/modules/vault.py:163-248 | a value written is found again just when its place and itself are clean |
| VaultFile.LookupAfterDelete | freq/modules/vault.py:251-265 | a deletion empties its place and leaves all others |
| CredentialNames.NamesAreSound | freq/api/secure.py:45-60 | places and keys differ for different slugs, scopes and ids, places are clean, global ones sort before those of users, and keys grow with their ids |
| CredentialNames.SlugsCollide | freq/api/secure.py:45-48 | two names with one slug |
| CredentialNames.NamesRead | freq/api/secure.py:30-60 | the names of places and keys as text |
| CredentialNames.PlainNameIsItsSlug | freq/api/secure.py:45-48 | a name of slug characters without dashes at its ends is its own slug, cut to 80 characters |
| CredentialNames.RunBecomesDash | freq/api/secure.py:45-48 | a run of other characters becomes one dash |
| CredentialNames.OtherNameIsUnknown | freq/api/secure.py:45-48 | a name without any slug character has the slug "unknown" |
| Credentials.CredentialStore.Set | freq/api/secure.py:202-265 | the set handler, by itself, on the vault's text, with every refusal and with writes that may fail |
| CredentialLaws.WhoMaySave | freq/api/secure.py:36-232 | a complete request for a new credential: operators, admins and protected users for themselves, only the latter two for all; where it goes and what is stored; everybody else is told that it is forbidden |
| CredentialLaws.IncompleteIsRefused | freq/api/secure.py:213-238 | a request without scope, label or secret is a bad one |
| Credentials.CredentialStore.Reveal | freq/api/secure.py:268-292 | the reveal handler |
| Credentials.CredentialStore.Delete | freq/api/secure.py:295-320 | the delete handler |
| CredentialLaws.WhoMayRevealAndDelete | freq/api/secure.py:141-320 | who is shown a credential that is there, and who may take it away, by role, scope and owner |
| Credentials.CredentialStore.List | freq/api/secure.py:111-199 | going through all entries lists just the rows of the records on them that the caller may read |
| CredentialLaws.SeesOnlyOwn | freq/api/secure.py:127-147 | the record that is revealed is global or the caller's own, and the one asked for |
| CredentialLaws.ListsAllOwn | freq/api/secure.py:111-199 | the list shows exactly the records that are global or the caller's own |
| CredentialLaws.RequestReachesExactly | freq/api/secure.py:202-265 | any set request, whatever its id and secret, changes a place outside its credential just when one of its lines reads as an entry there that differs and wins the lookup |
| CredentialLaws.PutReaches | freq/api/secure.py:202-265 | what every place outside a credential holds once it has been stored, whatever its id, its secret and the writes that fail |
| CredentialLaws.ConfinedExactly | freq/api/secure.py:202-265 | storing a credential leaves all places outside it alone in every vault just when its lines read as nothing outside it |
| CredentialLaws.ContainedIsConfined | freq/api/secure.py:202-265 | a plain id and a secret whose further lines read as nothing make such a credential |
| CredentialLaws.ContainmentIsNeeded | freq/api/secure.py:222-260 | for every vacant place, and every one that sorts behind the caller's, there is a secret whose second line puts any value there |
| CredentialLaws.PlainIdIsNeeded | freq/api/secure.py:223-260 | and there is an id that does so, whatever the secret |
| CredentialLaws.BarDisturbsOnlyVacant | freq/api/secure.py:223-260 | an id with a bar but no line end can disturb vacant places only |
| CredentialLaws.SetThenReveal | freq/api/secure.py:202-292 | a saved credential is revealed with the secret stored just when its id is plain and the secret clean |
| CredentialLaws.TypedSecretIsCallers | freq/api/secure.py:234-258 | a secret is by the caller who typed it, and saving a credential anew with the secret it has leaves its author |
| CredentialLaws.SavedKeepsOrigin | freq/api/secure.py:234-258 | what is stored is the secret typed or the one there was, and an existing record keeps creator and creation time |
| CredentialRuns.UndisturbedIsHandler | freq/api/secure.py:202-320 | a request whose locked steps nobody disturbs does what its handler does by itself |
| CredentialRuns.StepAt | freq/modules/vault.py:200-265 | the exact effect of each locked step of a contained request on every place |
| CredentialRuns.ReachableIsWellKept | freq/api/secure.py:51-60 | however contained requests interleave, each record stands at the place of its scope and owner, and a record is shown to its owner only, unless it is global |
| CredentialRuns.NoInterference | freq/api/secure.py:202-320 | however many steps requests of users with other slugs take, in any order and whatever writes fail, a user's credentials stay as they are |
| CredentialRuns.RolesGuard | freq/api/secure.py:36-38 | the request of a viewer or of a caller without a role changes nothing and is forbidden; no step of a contained request of a viewer, an operator or a caller without a role changes a global credential |
| CredentialRuns.RevealedSecretIsOwn | freq/api/secure.py:268-292 | in every interleaving, whatever writes are lost, a secret revealed to a user for their own credential was typed by that user, if no other user of the run has the same slug |
| SharedSlugs.TurnsDoNotInterfere | freq/api/secure.py:202-320 | users of one slug do not change each other's credential, whatever writes fail, if no two of them ever have requests for it in flight |
| SharedSlugs.TurnsKeepSecretsApart | freq/api/secure.py:202-320 | and a revealed secret is then the caller's own if, moreover, no half of a request is lost and the credential is not saved while it is being deleted |
| SlugLeaks.RaceLeaks | freq/api/secure.py:202-320 | any two users with one slug have a run with both at work, no write lost and no deletion, in which one record replaces the other and the second user is shown the first one's secret |
| SlugLeaks.HalfLostLeaks | freq/api/secure.py:202-320 | they have a run in which they take turns and one write is lost, with the same end |
| SlugLeaks.SaveInDeleteLeaks | freq/api/secure.py:202-320 | they have a run in which they take turns, no write is lost, and a save overlaps with a deletion by the same user, with the same end |
| ConfigCache.FreshExactlyIfCoherent | freq/core/config.py:436-538 | at every point of a run, whatever call comes next, an answer from the cache is what a fresh load would give, just when every load of the run read and stamped files that load alike |
| ConfigCache.AtomicLoadsAreFresh | freq/core/config.py:447-538 | if no file changes between being read and being stamped, every hit is fresh |
| ConfigCache.HitIsRecent | freq/core/config.py:447-454 | a hit returns what an earlier load of the same directory read, less than 5 s ago |
| ConfigCache.HitsExactly | freq/core/config.py:447-454 | a call is answered from the cache just when it is not forced, the last load was of the same directory and less than 5 s ago, and the stamps are the same |
| ConfigCache.FirstCallLoads | freq/core/config.py:447-456 | the first call loads |
| ConfigCache.EditWhileLoading | freq/core/config.py:456-537 | a run in which an edit during a load makes the next call return the old configuration |
| HealthState.Aggregate | freq/core/health_state.py:185-230 | the worst state, how many hosts are in it, and the first of them |
| HealthState.WorstOccurs | freq/core/health_state.py:192-218 | the rollup is the state of some host, and none is worse |
| HealthState.WorstIsFirstOf | freq/core/health_state.py:192-218 | refused logins come before unreachable, degraded, stale, recovering and live hosts |
| HealthState.OrderDoesNotMatter | freq/core/health_state.py:211-218 | the rollup depends only on the collection of entries |
| HealthState.WorstOfJoin | freq/core/health_state.py:211-218 | two fleets joined have the worse of their rollups |
| HealthState.LiveIffAllLive | freq/core/health_state.py:214-220 | the rollup is live exactly when every host is |
| HealthState.FailureShows | freq/core/health_state.py:64-158 | no classification of a failed probe has the healthy alias, and a fleet with one is at best degraded |
| HealthState.ClassifiedExactly | freq/core/health_state.py:64-120 | a timeout is unreachable whatever was printed; then a refused login, then an unanswered connection, by the words of the message in any case; anything else is degraded |
| HealthState.AliasTells | freq/core/health_state.py:48-158 | live and recovering hosts have the healthy alias, all others their state |
| HealthState.OldEntryTells | freq/core/health_state.py:233-242 | an entry without a state is live if its alias is healthy, else unreachable |
| HealthState.StaleShows | freq/core/health_state.py:161-182 | a stale entry is never counted or shown as live |
| HealthScore.ComputeScore | freq/api/fleet.py:1082-1131 | the score is 100 minus the reported penalties and lies in 20..100, so clamping never matters |
| HealthScore.JudgeStates | freq/api/fleet.py:1089-1103 | the penalty for hosts that are down, and the free report of stale ones |
| HealthScore.PercentDownCosts | freq/api/fleet.py:1093-1096 | every whole per cent of hosts down costs two points, up to 40 |
| HealthScore.DownExactly | freq/api/fleet.py:1088-1090 | a host is down in three of the six states, or by its alias if it has no state |
| HealthScore.OneHostCosts | freq/api/fleet.py:1092-1116 | no host costs nothing; one alone 40 points if it is down, 5 each for memory and disk above 80 per cent |
| HealthScore.JudgeCapacity | freq/api/fleet.py:1105-1116 | the penalties for memory and disk |
| HealthScore.JudgeVms | freq/api/fleet.py:1118-1128 | the penalty for stopped machines |
| HealthScore.StoppedCosts | freq/api/fleet.py:1119-1128 | nothing up to three in ten machines stopped, then a point each, up to 10; templates do not count |
| HealthScore.GradesAre | freq/api/fleet.py:1131-1131 | the grades and their limits |
| HealthScore.RoundIsMonotone | freq/api/fleet.py:1093-1093 | half-even rounding is monotone |
| HealthScore.RoundsToNearest | freq/api/fleet.py:1093-1093 | rounding goes to the nearest integer, and from the middle to the even one |
| HealthScore.GoingDownNeverHelps | freq/api/fleet.py:1088-1131 | a host that goes bad with its readings unchanged never raises the score or betters the grade |

## Left out

- WebSocketIO.ParseFrame: says nothing of a call with both a socket and a non-empty buffer, which no caller makes.
- TerminalBridge.Bridge.Run: writes to the terminal are taken whole or fail; partial writes are not modelled.
- TerminalSessions.SessionStore.CleanupStale: descriptors of different sessions differ, as the operating system sees to; reuse of a descriptor number after it was closed is not modelled.
- TerminalSessions.RunKeepsOwnership: a bridge that still uses its descriptor in the turn in which another request closes it is not modelled.
- IdracSpacing.RunIsSpaced: the cold-cache iDRAC probe of `freq/api/fleet.py`, which has a lock and stamp of its own, and the cache of read results in `freq/api/hw.py` are outside.
- HostRegistry.WrittenLoads: the reader knows the part of TOML that registries use; Unicode escapes, multi-line strings, other tables and fields whose TOML type is not the printed one (a number for a label, say) are not modelled, and a VMID given as a string is read as plain decimal digits.
- AuthSessions.SessionTable.LookupSession: the response cookie is not modelled.
- AuthSessions.LazyEqualsEager: operations come in the order of their times; a handler that has read the clock before another one and takes the lock after it is not modelled.
- CredentialRuns.NoInterference: every reading of the vault succeeds; what becomes of a write after one that failed is `VaultFile.FailedReadForgets`. Other writers of the vault (the command line, other handlers) are not modelled.
- SharedSlugs.TurnsDoNotInterfere: ids generated by the server are new to the vault when they are made.
- Credentials.CredentialStore.Set: the vault's encryption is not modelled, and JSON is a parameter: one line that reads back. A record that is JSON but lacks some of its fields is not modelled.
- CredentialNames.NamesAreSound: stripping a user name and putting it in lower case is a parameter.
- Credentials.CredentialStore.List: the order in which the rows are shown, the counts and the masked fields are not modelled.
- SectionEditor.WriteSetting: text-mode reading has already turned CR LF into LF; parsing of addresses is a parameter.
- ConfigCache.FreshExactlyIfCoherent: calls come one after the other; threads that interleave while they assign the four variables of the cache are not modelled. Stamps are taken to tell contents apart; what is loaded from files other than the seven stamped ones, and callers that change the configuration they got, are not modelled.
- HealthState.Aggregate: entries carry one of the six states or none; the wording of reasons is left to the host index and counts, and the classification's reason texts are not modelled.
- HealthScore.ComputeScore: percentages are computed over the reals, not in binary floating point, and the age fields are left out.
- AnsiText.Truncate: characters are counted one by one, as the code does; wide and combining characters are not measured.
- Cryptography (password hashes, the websocket accept key, token generation), HTTP headers, cookies and JSON shapes.
- Resolving the client address through trusted proxies, password checks, and user management beyond the purge of sessions.
- The device handlers (SSH, Redfish, OPNsense, Synology, TrueNAS, pfSense), the command line and the plugins: no reasoning beyond wrapping.
- `footer`, `blank`, the step indicators, badges and table headers of `freq/core/fmt.py`: they would only repeat the bordered line.
