# Verified models of the Stormancer C++ SDK

This project models the parts of the SDK, and of the Boost headers vendored with it,
whose correctness rests on more than one function, and proves what they promise.

**Rationals** (`Integers`, `CommonFactor`, `RationalValue`, `RationalCancel`, `Rational`,
`RationalGcd`). `boost::rational` as a class whose operators update numerator and
denominator in place, over any integer type: unbounded, or two's complement of any
width. Every arithmetic step goes through an operation that demands its exact result
fits, so a method that verifies never leaves the range of its type; negation and the
signed/unsigned casts wrap, as the comment in `operator<` says they do. The operators
are proved to compute the textbook field operations on normal forms, for which the
field laws, the total order and the uniqueness of normal forms are proved separately.
The integer gcd beneath them (binary for built-in types, Euclidean for class types) is
proved too, and the rational gcd and lcm are shown to be greatest and least.

**Tokenizers** (`TokenSpec`, `TokenFunctions`, `TokenIterator`, `EscapedMeaning`,
`EscapedRoundTrip`, `CharTokens`, `OffsetTokens`). The three tokenizer function objects, the iterator that
drives them, and what iterating over a whole input yields: what any escaped list means
and which texts are none, a round trip with a printer,
fields and delimiters that rebuild the input, the one cover by maximal runs, and tokens
that add up.

**Party replication** (`PartyState`, `PartyClient`, `PartyService`, `PartyProtocol`,
`PartyEffects`, `PartyInOrder`, `PartyReady`, `PartyLeader`). The handlers of `PartyService` on their member vector, shown to refine
the server's operations on a map; then the protocol over a network that loses, repeats
and reorders messages, what each step sends, tells and queues, what becomes of the player's ready requests meanwhile, and the
special case of a channel that keeps the order, whose runs are shown to be runs of the
network. A party handler runs as one step, as it holds the
state mutex.

**Connection state** (`ConnectionState`, `UsersApi`). The mutual recursion between
`setConnectionState`, `getAuthenticationScene` and `loginImpl`. The client is held
weakly and can go between any two of the checks made during one call; `life` counts the
checks that will still find it, so a theorem about all values of `life` is one about
every moment at which the client may expire. Logins that fail, retry timers that
fire and a credentials callback that comes or goes are operations of a run.

**Notifications** (`Notifications`), with the tasks posted to the application's
dispatcher and what each of them finds when it runs, and the **player data cache**
(`PlayerData`).

Each imperative method is proved equal to a function of its old state; the theorems are
about those functions, and about all runs.

Some expectations are false of the code. Each is stated with the exact condition under
which the code does meet it, most with a concrete input that fails:

- `rational(-128, -3)` in a signed byte silently becomes -128/3 (`Rational.Normalize`,
  `ConstructorLosesSign`): the numerator is right exactly when its reduced value fits.
- `/=` can overflow on a quotient that fits: in 32 bits, 2^30 / (-1/2)
  (`RepresentableQuotientOverflows`, `QuotientFitsExactly`).
- An escaped list does not round-trip when 'n' is an escape or a quote
  (`RoundTripExactly`).
- Iterating by offsets does not end when wrapping round offsets that are all zero or
  less (`EndsExactly`).
- Refusing a partial last token lets through one that is a single character short
  (`PartialRefusedExactly`).
- A used `char_separator` loses a leading empty field, as `reset` does nothing
  (`StaleFlagLosesLeadingField`).
- A leader who connects after becoming leader is not flagged until the next snapshot or
  change of leader (`LeaderFlaggedExactly`, `FlagCompleteKeptExactly`,
  `FlagCompleteRestoredExactly`).
- A late snapshot takes the replica back (`VersionDropsExactly`).
- A ready request can leave before the client is connected to the party's game finder,
  when the settings have gone away and come back (`ReadyConnectedExactly`,
  `ReadyBeforeConnecting`); it cannot over a channel that keeps the order, if new
  settings have new numbers (`ReadyIsConnectedInOrder`).
- A client that expires in the middle of a disconnection leaves the state machine in
  Reconnecting with no login task, and so does a disconnection reported while
  reconnecting (`StrandedExactly`, `EndsDisconnectedExactly`, `ExpiryHalfwayStrands`);
  which operations take it out of there is `StrandedLeavesExactly`.
- A logout does not stop a retry timer, which connects again without looking at whether
  reconnection is still on (`LogoutIsFinalExactly`, `RetryAfterLogout`).
- The scene's own connection attempts repeat a report, or report a state that was not
  entered (`PerformKeepsInformedExactly`).
- A notification can reach the application before an older one that still waits with
  the dispatcher (`InOrderExactly`, `DeliveredInOrderExactly`, `DrainOvertakesPosted`).
- A notification that was pushed out of the buffer has still been acknowledged
  (`AcknowledgesAll`); it is lost exactly when 101 newer ones came (`LostExactly`).

## Model

| member | source | states |
|---|---|---|
| CommonFactor.GcdEuclidean | dependencies/boost/boost/integer/common_factor_rt.hpp:81-108 | terminates with the gcd up to sign, for truncating remainders of any signs |
| CommonFactor.Whittle | dependencies/boost/boost/integer/common_factor_rt.hpp:148-176 | halving and subtracting two values, not both even, ends in their gcd |
| CommonFactor.GcdBinary | dependencies/boost/boost/integer/common_factor_rt.hpp:127-188 | the binary algorithm returns the gcd of every two unsigned values, zeros included |
| CommonFactor.IntegerGcd | dependencies/boost/boost/integer/common_factor_rt.hpp:291-296 | the gcd for every integer type, cast back to the signed type, which wraps only for a gcd of max+1 |
| CommonFactor.IntegerLcm | dependencies/boost/boost/integer/common_factor_rt.hpp:190-221 | the non-negative lcm, zero when an argument is zero |
| Integers.CommonMultiple | dependencies/boost/boost/integer/common_factor_rt.hpp:190-221 | every common multiple is a multiple of the lcm |
| Integers.CommonDivisor | dependencies/boost/boost/rational.hpp:385-390 | every common divisor divides the gcd |
| Rational.Rational.Normalize | dependencies/boost/boost/rational.hpp:841-873 | throws exactly on a zero denominator or one whose reduced magnitude does not fit; otherwise the result is the normal form, but for the numerator's sign when its reduced magnitude does not fit |
| Rational.Rational.AddAssign | dependencies/boost/boost/rational.hpp:489-522 | the exact sum in normal form, also when the argument is the object itself, with no step out of range if the two products and their sum fit |
| Rational.Rational.SubAssign | dependencies/boost/boost/rational.hpp:524-541 | the exact difference in normal form |
| Rational.Rational.MulAssign | dependencies/boost/boost/rational.hpp:543-557 | the exact product in normal form; overflows only if the product in lowest terms does not fit |
| Rational.Rational.DivAssign | dependencies/boost/boost/rational.hpp:559-585 | throws exactly on a zero divisor and then changes nothing; otherwise the exact quotient with a positive denominator |
| Rational.Rational.AddInt | dependencies/boost/boost/rational.hpp:264-269 | the exact sum with an integer, in normal form |
| Rational.Rational.SubInt | dependencies/boost/boost/rational.hpp:270-275 | the exact difference with an integer, in normal form |
| Rational.Rational.MulInt | dependencies/boost/boost/rational.hpp:276-284 | the exact product with an integer, in normal form; overflows only if that does not fit |
| Rational.Rational.DivInt | dependencies/boost/boost/rational.hpp:285-307 | throws exactly on zero; otherwise the exact quotient by an integer of either sign, the numerator never overflowing if the answer fits |
| RationalCancel.SumByPartialGcd | dependencies/boost/boost/rational.hpp:495-508 | dividing by the gcd of the sum with the gcd of the denominators already gives the normal form |
| RationalCancel.ProductByCrossGcds | dependencies/boost/boost/rational.hpp:550-555 | cancelling crosswise before multiplying already gives the normal form |
| RationalCancel.QuotientByCrossGcds | dependencies/boost/boost/rational.hpp:574-583 | the same for the quotient, whichever sign the gcd comes back with, and when the sign must move |
| Rational.Rational.LessThan | dependencies/boost/boost/rational.hpp:737-821 | for all positive denominators the lockstep expansions terminate, stay in range and decide the order of the cross products |
| Rational.QuotientsDecide | dependencies/boost/boost/rational.hpp:774-781 | the first differing quotient decides the order, reversed after an odd number of reciprocals |
| Rational.EqualQuotientsCancel | dependencies/boost/boost/rational.hpp:783-797 | equal quotients cancel and the reciprocals of the remainders compare the other way round |
| Rational.ExpansionEnds | dependencies/boost/boost/rational.hpp:799-820 | an expansion that has ended counts as infinity |
| Rational.MixedFraction | dependencies/boost/boost/rational.hpp:357-361 | the repair loop turns truncation into rounding down, in range |
| Rational.Rational.LessThanInt | dependencies/boost/boost/rational.hpp:351-368 | comparing only the rounded-down quotient decides the order against an integer |
| Rational.Rational.GreaterThanInt | dependencies/boost/boost/rational.hpp:369-373 | the converse comparison, for normal forms |
| Rational.Rational.EqualsInt | dependencies/boost/boost/rational.hpp:374-378 | field equality is value equality |
| Rational.RepresentableIffReducedFits | dependencies/boost/boost/rational.hpp:550-551 | a type can represent a value at all exactly when it can hold its normal form |
| RationalValue.LeastTerms | dependencies/boost/boost/rational.hpp:400-404 | a normal form has the least magnitudes of all fractions of its value |
| RationalValue.NormalFormsUnique | dependencies/boost/boost/rational.hpp:823-829 | field-by-field equality is equality of values |
| RationalValue.PlusAssociative | dependencies/boost/boost/rational.hpp:602-610 | addition is associative on normal forms, as equality of fields |
| RationalValue.MultAssociative | dependencies/boost/boost/rational.hpp:636-644 | multiplication is associative on normal forms |
| RationalValue.MultDistributes | dependencies/boost/boost/rational.hpp:602-644 | multiplication distributes over addition on normal forms |
| RationalValue.OperatorsCommute | dependencies/boost/boost/rational.hpp:602-652 | addition and multiplication commute |
| RationalValue.MinusUndoesPlus | dependencies/boost/boost/rational.hpp:489-541 | subtracting what was added gives back the same fields |
| RationalValue.QuotUndoesMult | dependencies/boost/boost/rational.hpp:543-585 | dividing by what was multiplied gives back the same fields |
| RationalValue.Trichotomy | dependencies/boost/boost/rational.hpp:737-829 | of less, equal and greater exactly one holds |
| RationalValue.LessTransitive | dependencies/boost/boost/rational.hpp:737-821 | the order is transitive |
| RationalValue.PlusKeepsLess | dependencies/boost/boost/rational.hpp:489-522 | adding the same rational to both sides keeps the order |
| RationalGcd.GcdOf | dependencies/boost/boost/rational.hpp:966-978 | the result object holds the rational gcd |
| RationalGcd.LcmOf | dependencies/boost/boost/rational.hpp:980-992 | the result object holds the rational lcm |
| RationalGcd.GcdQIsGreatestDivisor | dependencies/boost/boost/rational.hpp:966-978 | it divides both arguments with integer quotients, and exactly the common divisors divide it |
| RationalGcd.LcmQIsLeastMultiple | dependencies/boost/boost/rational.hpp:980-992 | both arguments divide it with integer quotients, and it divides exactly the common multiples |
| RationalGcd.GcdQIsNormal | dependencies/boost/boost/rational.hpp:973-976 | the fields passed to the constructor are in normal form already, unless both arguments are zero |
| RationalGcd.LcmQIsNormal | dependencies/boost/boost/rational.hpp:987-990 | the fields passed to the constructor are in normal form already |
| RationalGcd.IsNormalizedDecidesNormal | dependencies/boost/boost/rational.hpp:385-412 | the conversion test accepts exactly the normal forms |
| RationalGcd.QuotientFitsExactly | dependencies/boost/boost/rational.hpp:574-583 | `/=` stays in range, sign flip included, exactly when the quotient fits and, for a negative divisor, so does its negated numerator; for all operands the type holds, and the gcd as `gcd` returns it, negative when both numerators are the minimum |
| RationalGcd.RepresentableQuotientOverflows | dependencies/boost/boost/rational.hpp:574-583 | 2^30 / (-1/2) in 32 bits overflows although -2^31 fits |
| RationalGcd.ConstructorLosesSign | dependencies/boost/boost/rational.hpp:857-871 | -128 / -3 in a signed byte is built without complaint as -128/3 |
| TokenSpec.CallProgresses | dependencies/boost/boost/token_functions.hpp:366-527 | each call that yields a token moves on or lowers a rank, so that iteration terminates; for offsets, unless they wrap and none is positive |
| TokenSpec.EndsExactly | dependencies/boost/boost/token_functions.hpp:366-405 | with input left, repeated calls come to an end exactly under that condition, whatever the function carries |
| TokenSpec.EndingCall | dependencies/boost/boost/token_functions.hpp:165-488 | when a call ends iteration, what it has written and the offset it leaves |
| TokenSpec.DelimsExactly | dependencies/boost/boost/token_functions.hpp:432-556 | which characters are kept and dropped as delimiters, for delimiters given and for the locale's |
| TokenFunctions.EscapedListSeparator.Invoke | dependencies/boost/boost/token_functions.hpp:161-198 | one call reads exactly one field or throws where it stands, with what it had read by then, and remembers whether a separator ended the field |
| TokenFunctions.EscapedListSeparator.DoEscape | dependencies/boost/boost/token_functions.hpp:126-148 | the escape sequences and the two errors, with the position and the text each leaves behind |
| TokenFunctions.OffsetSeparator.Invoke | dependencies/boost/boost/token_functions.hpp:366-405 | one call takes the next offset's characters, none for an offset of zero or less, or what is left, and writes the token even if it refuses it |
| TokenFunctions.CharSeparator.Invoke | dependencies/boost/boost/token_functions.hpp:457-527 | one call in either mode, with the carried flag |
| TokenIterator.TokenIterator.Initialize | dependencies/boost/boost/token_iterator.hpp:67-72 | resets and fetches the first token, unless already valid or the range is empty; position, token and validity after every outcome, throwing included |
| TokenIterator.TokenIterator.Increment | dependencies/boost/boost/token_iterator.hpp:50-53 | position, token, validity and function state after one more call, also one that ends or throws |
| TokenIterator.Collect | dependencies/boost/boost/token_iterator.hpp:29-102 | iterating from begin to end terminates with the token sequence and leaves the caller's function object alone |
| EscapedMeaning.TokenizeIsMeaning | dependencies/boost/boost/token_functions.hpp:126-198 | for every text: its tokens are the texts of the fields into which separators outside quotes divide its units; if it gets stuck, the complete fields and the reason |
| EscapedMeaning.AcceptedExactly | dependencies/boost/boost/token_functions.hpp:126-198 | a text is accepted exactly when it is a row of units: characters that are no escape, and escapes followed by 'n', a quote, a separator or an escape |
| EscapedMeaning.FailsExactly | dependencies/boost/boost/token_functions.hpp:127-147 | "cannot end with escape" exactly when such a row is followed by an escape and nothing more, "unknown escape sequence" exactly when by an escape and any other character |
| EscapedMeaning.CallMeaning | dependencies/boost/boost/token_functions.hpp:161-198 | the token, position and flag after one call, and the text and position that a throwing one leaves |
| EscapedRoundTrip.RoundTrip | dependencies/boost/boost/token_functions.hpp:127-198 | tokenizing undoes printing for every list of quoted or bare cells, empty and trailing ones included; only an empty text yields no token |
| EscapedRoundTrip.RoundTripExactly | dependencies/boost/boost/token_functions.hpp:130-133 | the round trip holds for all lists exactly when 'n' is neither an escape nor a quote |
| EscapedRoundTrip.LetterNBecomesNewline | dependencies/boost/boost/token_functions.hpp:130-133 | otherwise the field "n" comes back as a newline |
| EscapedRoundTrip.CanonicalFormKeepsTokens | dependencies/boost/boost/token_functions.hpp:80-87 | rewriting any accepted input fully quoted keeps its tokens |
| CharTokens.KeepingYieldsFields | dependencies/boost/boost/token_functions.hpp:490-526 | keeping empty tokens, every nonempty input yields its fields with the kept delimiters between them |
| CharTokens.FieldsRebuildInput | dependencies/boost/boost/token_functions.hpp:490-526 | there is one field more than delimiters, and together they rebuild the input |
| CharTokens.FieldsAreGaps | dependencies/boost/boost/token_functions.hpp:490-526 | no field holds a delimiter |
| CharTokens.StaleFlagLosesLeadingField | dependencies/boost/boost/token_functions.hpp:455 | with the flag left set, a leading empty field is lost, and nothing else |
| CharTokens.DroppingYieldsTheCover | dependencies/boost/boost/token_functions.hpp:466-489 | dropping empty tokens, the tokens are the kept delimiters and the maximal runs, with only dropped delimiters around them |
| CharTokens.CoverUnique | dependencies/boost/boost/token_functions.hpp:466-489 | there is only one such cover of an input |
| CharTokens.DroppingConserves | dependencies/boost/boost/token_functions.hpp:466-489 | no token is empty, and they concatenate to the input without its dropped delimiters |
| OffsetTokens.OffsetTokens | dependencies/boost/boost/token_functions.hpp:366-405 | the tokens add up to the whole input when wrapping, to the reach of the offsets otherwise, and each is as wide as its offset, empty if that is zero or less, unless it ends the input |
| OffsetTokens.ZeroOffsetYieldsEmptyToken | dependencies/boost/boost/token_functions.hpp:389-404 | a zero offset among positive ones yields empty tokens between the others |
| OffsetTokens.PartialRefusedExactly | dependencies/boost/boost/token_functions.hpp:399-401 | refusing a partial last token drops it exactly when it is two or more characters short |
| OffsetTokens.OneShortIsReturned | dependencies/boost/boost/token_functions.hpp:399-401 | a partial token one character short is returned all the same |
| PartyService.PartyService.CheckVersionNumber | Plugins/public/Party/Party.hpp:758-772 | accepts exactly the next version of a known state, and otherwise asks for a snapshot |
| PartyService.PartyService.SyncPartyState | Plugins/public/Party/Party.hpp:775-806 | asks once until an answer or a failure |
| PartyService.PartyService.HandlePartyStateResponse | Plugins/public/Party/Party.hpp:808-823 | the state after a snapshot, with leader flag, game finder and events |
| PartyService.PartyService.HandleSettingsUpdate | Plugins/public/Party/Party.hpp:825-838 | the state after new settings |
| PartyService.PartyService.HandleUserDataUpdate | Plugins/public/Party/Party.hpp:840-858 | the state after new user data, and an event only if the user is known |
| PartyService.PartyService.ApplyStatuses | Plugins/public/Party/Party.hpp:868-877 | the loop over a batch applies its entries in order, skipping unknown users |
| PartyService.PartyService.HandleMemberStatusUpdate | Plugins/public/Party/Party.hpp:860-883 | the state after a batch of statuses, with one event |
| PartyService.PartyService.HandleMemberConnected | Plugins/public/Party/Party.hpp:885-899 | the state after a connection |
| PartyService.PartyService.HandleMemberDisconnected | Plugins/public/Party/Party.hpp:901-919 | the state after a disconnection |
| PartyService.PartyService.HandleLeaderChanged | Plugins/public/Party/Party.hpp:921-939 | the state after a change of leader |
| PartyService.PartyService.UpdateLeader | Plugins/public/Party/Party.hpp:941-955 | moves the flag |
| PartyService.PartyService.UpdateGameFinder | Plugins/public/Party/Party.hpp:686-756 | cancels earlier connections and queues one to the new game finder, if it has a name |
| PartyService.PartyService.RunConnectTask | Plugins/public/Party/Party.hpp:717-729 | a queued connection is issued unless its token is cancelled |
| PartyService.PartyService.GameFinderConnected | Plugins/public/Party/Party.hpp:729-738 | the continuation behind a connection that was made notes it, unless it has been cancelled |
| PartyService.PartyService.UpdatePlayerStatus | Plugins/public/Party/Party.hpp:472-498 | the loop decides whether a status request is sent, refused, skipped or made to wait, with the number of the settings held |
| PartyService.PartyService.SendReady | Plugins/public/Party/Party.hpp:499-518 | a ready request that has waited goes out only if the settings held have the number it was made with |
| PartyEffects.ArrivalOutcome | Plugins/public/Party/Party.hpp:686-955 | message by message: the calls, disconnections and events it leads to, in order, the connection it queues, and when it asks for a snapshot |
| PartyEffects.TaskConnectsExactly | Plugins/public/Party/Party.hpp:717-729 | the first queued connection is issued exactly if its token is the current one |
| PartyEffects.AskingExactly | Plugins/public/Party/Party.hpp:472-498 | when a status request leaves or waits, with what number |
| PartyEffects.AnswersExactly | Plugins/public/Party/Party.hpp:472-518 | what the caller of a status request learns, in every case |
| PartyEffects.ResumingExactly | Plugins/public/Party/Party.hpp:499-518 | a ready request that waited leaves exactly if the settings held have its number |
| PartyState.ApplyUpdateRefines | Plugins/public/Party/Party.hpp:825-955 | every handler does to the member vector what the server does to its map, and keeps ids unique |
| PartyState.SetStatusesRefines | Plugins/public/Party/Party.hpp:869-877 | the batch loop refines the batch of map updates, repeated and unknown ids included |
| PartyState.FlagCompleteKeptExactly | Plugins/public/Party/Party.hpp:885-955 | a present leader stays flagged under every update except the connection of the leader itself |
| PartyState.FlagCompleteRestoredExactly | Plugins/public/Party/Party.hpp:885-955 | a leader left unflagged is mended by exactly two updates: another leader, or the departure of this one |
| PartyLeader.LeaderFlaggedExactly | Plugins/public/Party/Party.hpp:808-955 | in every reachable state a present leader is flagged exactly if it has not connected since the last snapshot or change of leader accepted |
| PartyState.LateLeaderIsNotFlagged | Plugins/public/Party/Party.hpp:885-939 | a run in which the leader ends up unflagged |
| PartyProtocol.ReplicaAgrees | Plugins/public/Party/Party.hpp:758-939 | under loss, duplication and reordering, in every reachable state a client with version v has the server's settings, leader and members of version v, with unique ids |
| PartyProtocol.LeaderFlagIsSound | Plugins/public/Party/Party.hpp:808-955 | in every reachable state at most one member is flagged, and it is the leader |
| PartyProtocol.RequestsAreBounded | Plugins/public/Party/Party.hpp:775-823 | in every reachable state the requests number at most the snapshots and failures handled, plus one |
| PartyEffects.SyncExactly | Plugins/public/Party/Party.hpp:758-823 | in every reachable state a snapshot is awaited exactly if an update that did not fit has arrived since the last snapshot or failure, and has been asked for exactly once each time that came to be |
| PartyProtocol.VersionDropsExactly | Plugins/public/Party/Party.hpp:808-813 | the version goes back exactly when an older snapshot arrives |
| PartyProtocol.NoStaleConnect | Plugins/public/Party/Party.hpp:686-756 | no step of any run connects to a game finder that the settings no longer name |
| PartyProtocol.GameFinderFollowsSettings | Plugins/public/Party/Party.hpp:686-756 | in every reachable state the game finder followed is the settings' one, and at most one queued connection is live, the one to it |
| PartyEffects.ConnectionsAreIssued | Plugins/public/Party/Party.hpp:686-756 | in every reachable state each connection under way or made has been issued, and the one to the game finder followed is queued, under way, made or failed |
| PartyReady.StatusCallsAreCurrent | Plugins/public/Party/Party.hpp:472-518 | over every run, each status request that leaves carries the number of the settings held at that step, leaves them alone, and is one that waited if it asks for ready |
| PartyReady.ReadyUnderItsOwnSettings | Plugins/public/Party/Party.hpp:498-513 | over every run in which settings numbers are not used twice, a ready request leaves only under the very settings it was made under, late snapshots or not |
| PartyReady.ReadyConnectedExactly | Plugins/public/Party/Party.hpp:468-518 | over every run, when a ready request leaves, the last thing that happened to the client's connection is that it was made to the settings' game finder, exactly when the connection with the current token has been made; so always if the game finder has not changed since the request |
| PartyReady.ReadyBeforeConnecting | Plugins/public/Party/Party.hpp:468-518 | a run in which a ready request leaves under its own settings before any connection |
| PartyInOrder.LinkRunIsRun | Plugins/public/Party/Party.hpp:758-939 | every run over the channel is a run of the network, and what is next in the channel can always arrive |
| PartyInOrder.ReadyIsConnectedInOrder | Plugins/public/Party/Party.hpp:468-518 | in order, with new numbers for new settings, a ready request leaves only when the client is connected to the party's game finder, under the settings it was made under |
| PartyInOrder.StepNeverFallsBehind | Plugins/public/Party/Party.hpp:758-823 | in order and without loss the version never decreases, and after the first snapshot no update is rejected and nothing asked for |
| PartyInOrder.NeverFallsBehind | Plugins/public/Party/Party.hpp:758-823 | the same between any two moments of a run |
| PartyInOrder.DrainedClientIsCurrent | Plugins/public/Party/Party.hpp:758-823 | with the channel empty, a client with a version has the server's current party |
| UsersApi.UsersApi.SetConnectionState | Plugins/public/Users/Users.hpp:760-812 | the state, task and events after a change of state, nested changes included; the recursion terminates |
| UsersApi.UsersApi.GetAuthenticationScene | Plugins/public/Users/Users.hpp:537-557 | starts a login only if none is under way and reconnection is on |
| UsersApi.UsersApi.LoginImpl | Plugins/public/Users/Users.hpp:814-833 | the synchronous part of a login and its two failures |
| UsersApi.UsersApi.Logout | Plugins/public/Users/Users.hpp:395-421 | the synchronous part of a logout |
| UsersApi.UsersApi.LoginAttemptFails | Plugins/public/Users/Users.hpp:975-994 | a failed login puts another one on a timer if reconnection is on and the state is not Disconnected |
| UsersApi.UsersApi.RetryFires | Plugins/public/Users/Users.hpp:1008-1019 | the timer logs in, whether or not reconnection is still on |
| ConnectionState.GivesUpExactly | Plugins/public/Users/Users.hpp:760-803 | for three reasons, by name, a disconnection disconnects the scenes and ends reconnection; after any other the machine reconnects |
| ConnectionState.ReportIsEntered | Plugins/public/Users/Users.hpp:760-812 | any other state reported is entered and told with its reason, unless it is the current one |
| ConnectionState.RequestOutcome | Plugins/public/Users/Users.hpp:537-557 | a request for the scene logs in only if no login is under way and reconnection is on, and remembers the login |
| ConnectionState.StartsExactly | Plugins/public/Users/Users.hpp:375-1019 | for every state and operation, how many logins are sent and end, and how many timers start and fire |
| ConnectionState.DisconnectionOutcome | Plugins/public/Users/Users.hpp:760-831 | where a disconnection leads, case by case, by what can be known before it |
| ConnectionState.EndsDisconnectedExactly | Plugins/public/Users/Users.hpp:760-831 | when a disconnection ends in Disconnected, exactly, by what can be known before it; and that this is when reconnection is off afterwards or the client was gone before |
| ConnectionState.StrandedExactly | Plugins/public/Users/Users.hpp:760-831 | it ends in Reconnecting with no login task exactly when, with reconnection on, the client goes halfway or the state was Reconnecting already |
| ConnectionState.StrandedLeavesExactly | Plugins/public/Users/Users.hpp:375-1019 | which operations take the machine out of that state, and which of them connect, exactly |
| ConnectionState.ExpiryHalfwayStrands | Plugins/public/Users/Users.hpp:778-803 | a client that goes in between leaves the machine reconnecting with no login |
| ConnectionState.ApplicationStaysInformed | Plugins/public/Users/Users.hpp:760-812 | over every run without scene connection attempts, failing logins, retry timers and changing credentials included, the application hears of each change once and of the last one last |
| ConnectionState.PerformKeepsInformedExactly | Plugins/public/Users/Users.hpp:843-857 | exactly the scene's connection attempts break that, repeating a report or reporting a state that was not entered |
| ConnectionState.AttemptsWhileOffExactly | Plugins/public/Users/Users.hpp:760-1019 | with reconnection off, an operation other than a login call attempts a login exactly when it is a retry timer that finds credentials and client |
| ConnectionState.OnlyRetriesAfterLogout | Plugins/public/Users/Users.hpp:395-1019 | over every run without a login call after a logout, the logins attempted are those retries, no more than the timers running at the logout |
| ConnectionState.LogoutIsFinalExactly | Plugins/public/Users/Users.hpp:395-1019 | no such run attempts a login exactly when no retry timer is running or the client is gone; missing credentials do not make it so, as they can be set before the timer fires |
| ConnectionState.RetryAfterLogout | Plugins/public/Users/Users.hpp:997-1019 | login, failure, logout, timer: the machine goes from Disconnecting to Connecting |
| Notifications.InAppNotificationService.RegisterNotificationsCallback | Plugins/private/InAppNotification/InAppNotificationService.cpp:30-45 | a callback drains the queue, oldest first; none leaves it alone |
| Notifications.InAppNotificationService.NotificationReceived | Plugins/private/InAppNotification/InAppNotificationService.cpp:47-83 | calls the callback, posts to the dispatcher or queues, pushing out the oldest when full, and acknowledges |
| Notifications.InAppNotificationService.RunPosted | Plugins/private/InAppNotification/InAppNotificationService.cpp:58-61 | a posted task calls the callback of the moment it runs, and has none to call after that was taken away |
| Notifications.NextEffects | Plugins/private/InAppNotification/InAppNotificationService.cpp:30-83 | over every run, what the next operation does: deliveries name the callback registered last, a notification is posted exactly when there are a dispatcher and a callback, and acknowledged last |
| Notifications.EverythingAccountedFor | Plugins/private/InAppNotification/InAppNotificationService.cpp:30-83 | over every run, what was received is, counted with repetition, what was delivered, is posted, is queued, or was pushed out, met no callback or was abandoned by the dispatcher |
| Notifications.QueueIsTheLastOnes | Plugins/private/InAppNotification/InAppNotificationService.cpp:30-76 | over every run the queue holds the last 101 received in the current period without a callback |
| Notifications.QueueIsBounded | Plugins/private/InAppNotification/InAppNotificationService.cpp:30-76 | at most 101 are queued, and none under a callback |
| Notifications.InOrderExactly | Plugins/private/InAppNotification/InAppNotificationService.cpp:30-76 | over a run of distinct notifications, those delivered, posted and queued are at every moment in the order received exactly when no drain and no direct call happens while one is posted |
| Notifications.DeliveredInOrderExactly | Plugins/private/InAppNotification/InAppNotificationService.cpp:30-76 | over a run of distinct notifications, those delivered come in the order received exactly when no overtaken task runs while there is a callback |
| Notifications.DeliversInOrder | Plugins/private/InAppNotification/InAppNotificationService.cpp:30-76 | without that, the callback is called in the order received, repeated notifications or not |
| Notifications.DrainOvertakesPosted | Plugins/private/InAppNotification/InAppNotificationService.cpp:36-61 | a run that delivers a queued notification before an older posted one |
| Notifications.LostExactly | Plugins/private/InAppNotification/InAppNotificationService.cpp:69-74 | a notification of the current period is still queued exactly when fewer than 101 newer ones came |
| Notifications.AcknowledgesAll | Plugins/private/InAppNotification/InAppNotificationService.cpp:78-81 | everything to be acknowledged on receipt is, lost or not, in order |
| PlayerData.PlayerDataService.GetPlayerData | Plugins/private/PlayerData/PlayerDataService.cpp:13-25 | reads the entry, inserting a default one |
| PlayerData.PlayerDataService.OnUpdateReceived | Plugins/private/PlayerData/PlayerDataService.cpp:55-81 | the loop with its early return, and the entries told of to whoever listens after each |
| PlayerData.ToldExactly | Plugins/private/PlayerData/PlayerDataService.cpp:73-79 | an entry applied is told of, in its place, exactly if the look taken after it finds a listener and the scene |
| PlayerData.BatchAppliesLongestPrefix | Plugins/private/PlayerData/PlayerDataService.cpp:55-71 | a batch applies exactly its longest prefix without an outdated entry, judged against the cache as updated so far |
| PlayerData.AppliedExactly | Plugins/private/PlayerData/PlayerDataService.cpp:55-71 | an entry is applied exactly if its version and those before it in the batch are at least what the cache holds at their turn |
| PlayerData.LookupAfterBatch | Plugins/private/PlayerData/PlayerDataService.cpp:55-71 | after a batch a lookup finds the last entry applied for its key, or what was there before |
| PlayerData.EqualVersionOverwrites | Plugins/private/PlayerData/PlayerDataService.cpp:63-70 | an equal version overwrites; only an older one is refused |
| PlayerData.VersionsNeverDecrease | Plugins/private/PlayerData/PlayerDataService.cpp:55-71 | over every run the version of each entry never decreases |
| PlayerData.DefaultsAreUnobservable | Plugins/private/PlayerData/PlayerDataService.cpp:13-25 | caches that differ in default entries alone cannot be told apart by any run |
| PlayerData.ReadsLeaveNoTrace | Plugins/private/PlayerData/PlayerDataService.cpp:13-25 | leaving every read out of a run changes nothing that can be seen afterwards |

## Left out

- Unsigned integer types for rationals, and the promotion of types narrower than int: `IntType` is signed or unbounded, and its arithmetic is that of its own width.
- Stream input and output of rationals, conversions between integer types, `rational_cast`, increments, `int - rational` and `int / rational`: thin wrappers over what is modelled.
- The range of intermediate values inside the gcd and lcm algorithms is not checked step by step: no value there exceeds the larger argument, and the lcm takes its fit as a precondition.
- Comparing token iterators, and tokenizing from single-pass input iterators, which builds tokens character by character instead of by range.
- The locale's isspace and ispunct are arbitrary sets of characters; `char_delimiters_separator`, which is deprecated, is left out.
- The party server is not part of this repository: its updates are the abstract operations on a map, it announces a connection only for an absent user, and its versions start at 1 or later.
- Message decoding, RPC transport, scenes and task scheduling: payloads arrive decoded, and a queued game finder connection starts, is cancelled, or is dropped because an earlier one failed. What the game finder itself does with a connection, losing one it had made included, and the disconnection from the scene after a failed one are left out.
- Events are entries in a log: application callbacks that call back into the SDK are not modelled.
- The asynchronous part of a login between its request and its end, the delay of the retry timer, and the credential handlers are left out; their effects on the state machine are operations of a run.
- The dispatcher runs posted notifications in the order they came, or goes and abandons them; posting to one that has been stopped, which throws, is left out, and so is a task that runs after the service has been destroyed.
- The player data cache is read between batches, not between the entries of one: a read inserts only default entries, which cannot be told from missing ones.
- The forwarding layers around these services (`Party_Impl`, containers, friends, game sessions, tunnels, profiles and the like): one-line calls that would only add easy members.
