# Verification of Chronograf's stateful cores

This project models the parts of Chronograf in which the code is hard to get right, and proves
what they keep over all inputs, all runs and all interleavings.

* **Pagination** – the goroutines, channels, `done` channel and wait groups with which the Kapacitor
  client lists all tasks, as a transition system under an arbitrary scheduler and failing fetches.
* **UrlPrefixer** – the sliding window that inserts a prefix into a streamed response, for any bytes
  behind it in its buffer, refined to a short recursion and compared with what its documentation promises.
* **Buckets, Sources, Servers, Users, UserRaces, Organizations** – the bolt stores as maps with a monotone
  sequence, each `db.Update` one atomic step, the organization facades that filter slices in place, and
  their interleavings.
* **Handlers** – the store-changing steps of the request handlers: one role per user and organization,
  roles only in organizations there are, founders who administer what they found, and flags only super
  admins set.
* **TagLogic, TagMeaning, Placeholders** – the reduction and analysis of InfluxQL conditions, what the
  collected tags still mean, and the placeholders of `Convert`.
* **WhereFilters, LambdaText** – the where filter's printer, its reader by regular expression, and what the
  printed text means to a parser and evaluator of TICKscript conditions.
* **LineProtocol** – the printer of points and a reader with InfluxDB's escaping rules.
* **AnnotationPoints, Annotations** – annotations as rows keyed by tags and time, written through the line
  protocol, with half-finished updates.
* **Permissions, Enterprise** – differences of permissions, roles and users, and their application.
* **Sessions** – nanosecond durations against tokens of whole seconds (sections 4.1.4 to 4.1.6 of RFC 7519).
* **Text, Options, Octets** – decimal numerals, sorting, ranging over maps in any order; absent values; bytes.

`dafny verify dfyconfig.toml` checks all of it.

## How the code is modelled

* A range over a Go map visits the keys in an order left open; results are proved for every order.
* A channel, a wait group and `sync.Once` are parts of the state of `Pagination`; a step that Go would
  answer with a panic leads to a state marked as such, and no run reaches one.
* I/O becomes parameters: which fetches, writes and posts succeed, the clock, the server's answers.
* An InfluxDB account holds a set of rights for each database; GRANT replaces it and REVOKE takes
  rights out of it. A meta node adds and removes members of sets, and refuses unknown roles.
* A claim of zero counts as absent and a token is valid through its expiry second, as in the vendored
  JWT library (`vendor/github.com/dgrijalva/jwt-go/claims.go`).

## Where the code falls short of what it promises

* The URL prefixer's comment promises a prefix after any attribute. Attributes inside the last window
  are not prefixed (`LastWindowMissed`; exactly when: `PromiseKept`, `PrefixedIff`). Its match looks past
  the window, into whatever its buffer holds there, once less than a window is left after a match
  (`WithinWindowIff`, `DeterminedIff`).
* A source added while the last one is being deleted can leave a store without a default
  (`InterleavingLosesDefault`; exactly when: `InterleavingKeepsIff`).
* Two organizations can be added under one name, because the name is looked up before the transaction
  that inserts (`TwoAddsOneName`; exactly when: `InterleavingKeepsNamesIff`).
* Two organizations that change one user at a time can undo each other's changes (`RemovalLost`; exactly
  when: `InterleavingKeepsIff` of `UserRaces`), and two first logins can store one user twice
  (`TwoLoginsOneName`; exactly when: `InterleavingKeepsNamesIff` of `UserRaces`).
* An OR over two tags is turned into tags that mean their AND (`DisjunctionOverTagsIsLost`), an OR with a
  time range is dropped (`DisjunctionWithTimeIsLost`), and an AND of two inequalities on one tag is read
  as an OR that always holds (`NeitherValueIsLost`; exactly when: `TwoGroupsKeptIff`,
  `TimeRangeKeptIff`, `TreeKeptIff`).
* The where filter is not read back when a value holds a single quote (`ReadBackIffClean`).
* Names and tag values with double quotes are printed with a backslash that InfluxDB's own rules keep, so
  they come back as others (`RecoveredIffClean`, `QuotesStayEscaped`); a point with unsupported fields
  only gives an unreadable line (`NothingToRead`).
* An annotation with a double quote in a tag is shown with a backslash before it and cannot be deleted, and
  one that ends at the zero of Unix time is moved to the present (`QuotedTag`; exactly when:
  `ShownAndDeletableIff`).
* Deleting an annotation shows an older version of it when another live row is left, which changing
  its tags is enough for (`DeleteRemovesIff`, `RetaggedThenDeleted`).
* An update to an allowance that InfluxDB does not know leaves the rights as they were, and a named
  all-scope entry is granted and revoked again (`UpdateMeetsIff`).
* A query text with an interval placeholder and its sentinel, or with the dashboard sentinel before the
  dashboard time, is reported changed (`RestoredIff`).
* A session can outlive its lifespan by less than a second (`LifespanOvershot`; exactly when:
  `WithinLifespanIff`), and without bound by switching organizations (`SwitchingOutlivesLifespan`; not
  otherwise: `EndsWithoutSwitches`).

## Model

| member | source | states |
|---|---|---|
| Pagination.EveryRun | kapacitor/kapa_client.go:33-113 | in every interleaving with any failing fetches: nothing is sent on a closed channel, no channel is closed twice, no wait group goes negative, and no run is longer than 4 * pages + 4 * workers + 5 steps |
| Pagination.InitInv | kapacitor/kapa_client.go:39-63 | the state that ListTasks sets up satisfies the invariant |
| Pagination.StepInv | kapacitor/kapa_client.go:33-113 | every enabled step of every goroutine keeps the invariant |
| Pagination.StepConserved | kapacitor/kapa_client.go:75-113 | every offset handed out is held by a worker, queued, gathered or lost, exactly once, after every step |
| Pagination.StepSafe | kapacitor/kapa_client.go:41-69 | the channel, wait-group and done-once discipline is kept by every step |
| Pagination.StepDecreasesRank | kapacitor/kapa_client.go:33-113 | every step strictly decreases the ranking function |
| Pagination.SomeStep | kapacitor/kapa_client.go:33-113 | until ListTasks has returned some step is enabled |
| Pagination.Progress | kapacitor/kapa_client.go:33-113 | no run deadlocks before ListTasks returns, even if every worker fails |
| Pagination.ReturnedResult | kapacitor/kapa_client.go:65-69 | a returned state holds exactly the pages handed out minus those whose fetch failed, and all tasks if and only if nothing was lost |
| Pagination.Result | kapacitor/kapa_client.go:33-70 | whatever ran, the result and the lost pages are the pages handed out, each once; without a failure it is all tasks as a multiset; it is all tasks if and only if no failed page held a task |
| Pagination.GeneratorFate | kapacitor/kapa_client.go:96-113 | where nothing can move any more ListTasks has returned and the option channel is closed if and only if done was; the generator stays blocked only if some fetch failed |
| Pagination.ListTasks | kapacitor/kapa_client.go:33-113 | under an arbitrary scheduler the call terminates, returns only tasks of the server, and all of them when no fetch failed |
| UrlPrefixer.MaxLenIsLongest | server/url_prefixer.go:164-173 | the window is as long as the longest attribute |
| UrlPrefixer.ComputeMaxLen | server/url_prefixer.go:165-173 | the loop computes that length |
| UrlPrefixer.FindMatch | server/url_prefixer.go:155-162 | the loop returns the first listed attribute at the start of what its slices reach, the window and the rest of the buffer's array, or that a slice goes beyond that |
| UrlPrefixer.MatchSound | server/url_prefixer.go:151-162 | a match is a non-empty listed attribute at the start of the subject |
| UrlPrefixer.MatchSeesAll | server/url_prefixer.go:151-162 | while there is source left the window decides, whatever lies behind it |
| UrlPrefixer.Advance | server/url_prefixer.go:140-144 | after a match the window is moved on by the match's length and filled up from the source; once the source is exhausted nothing is appended and the window shrinks |
| UrlPrefixer.Serve | server/url_prefixer.go:105-148 | for every prefix, attribute list, input and content of the buffer behind the window, the byte-at-a-time loop does exactly what the recursion says: it completes, panics, or matches an empty window forever; there is one flush for every 512 shifted bytes and one after the final window |
| UrlPrefixer.RewriteParses | server/url_prefixer.go:113-148 | as long as only the input is looked at, the output is read off a parse of the input: first listed attribute at each position, attribute then prefix, scanning resumes after the attribute, final window copied |
| UrlPrefixer.ParseRewrites | server/url_prefixer.go:113-148 | conversely every such parse is the rewrite, so the parse determines the output |
| UrlPrefixer.WithinWindowIff | server/url_prefixer.go:113-148 | the loop never looks past its window if and only if at least a window is left after every match that begins up to the last window |
| UrlPrefixer.SpareUnseen | server/url_prefixer.go:151-162 | then what lies behind the window does not matter |
| UrlPrefixer.DeterminedIff | server/url_prefixer.go:151-162 | the input alone decides what the loop does if and only if that is so: otherwise an array that ends with the window panics, and a longer one does not |
| UrlPrefixer.Conserved | server/url_prefixer.go:113-148 | of every output written without looking past the window: with an empty prefix it is the input, and it is longer by one prefix for each match of the scan |
| UrlPrefixer.UnchangedIff | server/url_prefixer.go:113-148 | when the loop passes its primed input on: with a prefix, if and only if no attribute begins before the last window, whatever lies behind the window; with none and whatever lies there, if and only if a window is left after every match; always when no attribute occurs |
| UrlPrefixer.PromiseKept | server/url_prefixer.go:73-76 | whatever lies behind the window, every occurrence is prefixed, as the documentation says, if and only if a window is left after every match that begins up to the last window, and the last window holds no attribute or the prefix is empty |
| UrlPrefixer.PrefixedIff | server/url_prefixer.go:113-148 | where the bytes behind the window complete no attribute and end within none, the loop completes, and every occurrence is prefixed if and only if each that begins after the start of the last window stands right behind another one, or the prefix is empty |
| UrlPrefixer.RoomyIsComplete | server/url_prefixer.go:151-154 | when the input fills the window and every occurrence leaves a whole window behind it, the loop never looks past its window and prefixes every occurrence |
| UrlPrefixer.LastWindowMissed | server/url_prefixer.go:128-136 | an input whose last window holds an attribute that is not prefixed, whatever lies behind the window |
| Buckets.U64tob | bolt/util.go:14-19 | the eight bytes decode to the number |
| Buckets.KeyOrder | bolt/util.go:7-19 | byte order of keys is the order of the numbers, and equal keys are equal numbers |
| Buckets.FilterInPlace | organizations/sources.go:41-48 | filtering a slice into its own first elements yields the functional filter |
| Buckets.Selected | organizations/sources.go:43-48 | the filtered records are exactly the bucket's records that satisfy the condition, once each |
| Sources.SourcesStore.ResetDefaultSource | bolt/sources.go:203-222 | every record loses its default flag and nothing else changes |
| Sources.SourcesStore.Update | bolt/sources.go:182-201 | an unknown id is refused; a default displaces all other defaults; the new bucket is stated whole |
| Sources.SourcesStore.IsEmpty | bolt/sources.go:70-75 | whether the store holds no source, in a transaction of its own |
| Sources.SourcesStore.Insert | bolt/sources.go:143-163 | a fresh id from the sequence; a default displaces all others |
| Sources.SourcesStore.Add | bolt/sources.go:68-84 | the first source becomes the default; exactly one default unless empty is kept |
| Sources.SourcesStore.SetRandomDefault | bolt/sources.go:224-254 | if the source was the default, the first other source becomes it; the new bucket is stated whole |
| Sources.SourcesStore.Delete | bolt/sources.go:86-98 | election and removal in one transaction |
| Sources.SourcesStore.Migrate | bolt/sources.go:23-47 | the result of updating every record of a stale snapshot, stated record by record; organizations and roles that were set are kept, the others become the default ones |
| Sources.AnyInterleaving | bolt/sources.go:68-98 | in every interleaving of the atomic steps, with Add's emptiness check and insert apart, at most one source is the default |
| Sources.StepSound | bolt/sources.go:143-254 | every atomic step keeps at most one default, keys and ids |
| Sources.CallKeepsOneDefault | bolt/sources.go:68-126 | a call on its own keeps exactly one default unless empty, if and only if it is not an update that clears the default's flag |
| Sources.StepKeepsOneDefault | bolt/sources.go:143-254 | of an atomic step: exactly one default unless empty is kept if and only if the step neither inserts an unflagged source into an empty bucket nor clears the default's flag |
| Sources.InterleavingKeepsIff | bolt/sources.go:68-126 | an interleaving keeps exactly one default in each of its states if and only if none of its steps is of these two kinds |
| Sources.SequentialRun | bolt/sources.go:68-126 | any sequence of calls that never clears the flag keeps exactly one default in a non-empty store |
| Sources.InterleavingLosesDefault | bolt/sources.go:70-79 | an Add interleaved with a Delete leaves a non-empty store without a default |
| Sources.MigrateElects | bolt/sources.go:34-44 | Migrate reaches at most one default from any start, and one if there was one |
| Sources.DeleteKeeps | bolt/sources.go:87-98 | a deletion keeps at most one default and, unless it empties the store, exactly one |
| Sources.OrgSourcesStore.All | organizations/sources.go:28-51 | the organization's sources, by the in-place filter |
| Sources.OrgSourcesStore.Delete | organizations/sources.go:65-78 | deletion by id through the facade |
| Sources.OrgSourcesStore.DeleteAll | bolt/organizations.go:164-173 | no source of the organization is left, others change at most in their flag, one default survives |
| Sources.DeletedAllFacts | bolt/organizations.go:169-173 | deletions one after the other, with re-elections in between, remove exactly the listed records and keep one default |
| Sources.PurgedByDeletes | bolt/organizations.go:164-173 | deleting all sources of an organization one by one purges it |
| Servers.ServersStore.ResetActiveServer | bolt/servers.go:164-183 | every record loses its active flag and nothing else changes |
| Servers.ServersStore.Add | bolt/servers.go:65-89 | a fresh id; the new server is the only active one |
| Servers.ServersStore.Update | bolt/servers.go:122-147 | an unknown id is refused; an active server displaces all others |
| Servers.ServersStore.Delete | bolt/servers.go:91-103 | removal without an election |
| Servers.OneActive | bolt/servers.go:64-147 | in every reachable state at most one server is active |
| Servers.OrgServersStore.All | organizations/servers.go:28-50 | the organization's servers, by the in-place filter |
| Servers.OrgServersStore.Delete | organizations/servers.go:64-77 | removal through the facade; an unknown id is refused |
| Servers.OrgServersStore.DeleteAll | bolt/organizations.go:175-184 | exactly the servers of other organizations are left, unchanged |
| Servers.OrgDashboardsStore.All | organizations/dashboards.go:28-51 | the organization's dashboards, by the in-place filter |
| Servers.OrgDashboardsStore.DeleteAll | bolt/organizations.go:186-195 | exactly the dashboards of other organizations are left, unchanged |
| Users.UsersStore.Get | bolt/users.go:72-101 | by id, or the first user with the name, provider and scheme |
| Users.UsersStore.Add | bolt/users.go:120-150 | refused if the user exists, else stored under a fresh id |
| Users.UsersStore.Update | bolt/users.go:163-177 | the record is replaced; an unknown id is refused |
| Users.UsersStore.Delete | bolt/users.go:152-161 | the record is removed; an unknown id is refused |
| Users.OrgUsersStore.ValidRoles | organizations/users.go:35-52 | the loop accepts exactly roles of the organization that have a name |
| Users.OrgUsersStore.FilterRoles | organizations/users.go:70-75 | the in-place role filter equals the functional filter |
| Users.OrgUsersStore.Get | organizations/users.go:57-85 | the user with the organization's roles only; not found without any |
| Users.OrgUsersStore.Add | organizations/users.go:92-167 | roles are joined to those elsewhere; refused for a user who already has one here; the new table is stated whole |
| Users.OrgUsersStore.Delete | organizations/users.go:171-193 | the user keeps exactly the roles elsewhere |
| Users.OrgUsersStore.Update | organizations/users.go:196-231 | the user is stored with the roles elsewhere followed by those given |
| Users.OrgUsersStore.All | organizations/users.go:235-267 | the members, each with the organization's roles only |
| Users.OrgUsersStore.KeepMembers | organizations/users.go:249-264 | the nested in-place filters equal the functional ones |
| Users.OrgUsersStore.DeleteAll | bolt/organizations.go:197-206 | every user is stripped of the organization's roles and otherwise unchanged |
| Users.UpdateGet | organizations/users.go:57-85 | Update then Get returns exactly the user written, or not found if no role was |
| Users.DeleteGet | organizations/users.go:171-193 | Delete then Get reports not found |
| Users.AddGet | organizations/users.go:92-167 | Add then Get returns exactly the roles given |
| Users.UpdateUpdate | organizations/users.go:196-231 | the last of two updates wins |
| Users.GetUpdate | organizations/users.go:196-231 | writing back what was read keeps every role, as a multiset |
| Users.ApplyKeeps | organizations/users.go:92-231 | one operation through a facade keeps every user's roles elsewhere, in order |
| Users.RunKeepsOthers | organizations/users.go:92-231 | any run through one organization's store keeps every user's roles elsewhere, in order |
| Users.FlagAfter | organizations/users.go:92-231 | the super admin flag after one facade operation: an addition gives it to the user added, if it was given, and takes it from nobody; an update sets it; a deletion leaves it |
| Users.SameFound | bolt/users.go:73-101 | whoever a query finds is found by it after an update that keeps the name |
| Users.AddedFound | bolt/users.go:121-151 | whoever was added is found under the name given |
| Users.OthersSeeTheSame | organizations/users.go:57-231 | so every other organization sees the same of every user |
| Users.FindKeyed | bolt/users.go:72-101 | what a lookup finds is stored under its id, and a failed lookup by name means that no such user exists |
| UserRaces.AloneIsTheCall | organizations/users.go:92-231 | the transactions of a facade's call on a known user, one after the other, are the call |
| UserRaces.FreshPlan | organizations/users.go:196-231 | what a call has decided to write agrees with the other organizations' roles when it has read them |
| UserRaces.StaleByOthersOnly | organizations/users.go:196-231 | and ceases to do so only by another call's write of the same user |
| UserRaces.InterleavingKeepsIff | organizations/users.go:92-231 | when calls of several organizations are interleaved, no organization sees another's calls if and only if no call writes roles of other organizations that have changed since it read them |
| UserRaces.RemovalLost | organizations/users.go:171-193 | two organizations remove one user at a time, and the first still sees the user |
| UserRaces.AddChecks | bolt/users.go:120-150 | an uninterrupted addition is refused if and only if its name, provider and scheme are taken |
| UserRaces.StepKeepsNamesIff | bolt/users.go:132-177 | a writing transaction keeps name, provider and scheme unique if and only if no other user has those it writes |
| UserRaces.InterleavingKeepsNamesIff | bolt/users.go:120-177 | they are unique in every state of an interleaving if and only if none of its transactions writes another user's |
| UserRaces.TwoLoginsOneName | bolt/users.go:125-132 | two additions of one user that both looked first leave the user twice |
| Organizations.OrganizationsStore.GetByName | bolt/organizations.go:262-283 | found if and only if some organization has the name |
| Organizations.OrganizationsStore.NameIsUnique | bolt/organizations.go:82-90 | true if and only if no organization has the name |
| Organizations.OrganizationsStore.CreateDefault | bolt/organizations.go:40-80 | finds or creates the default organization and its wildcard mapping; names stay unique if and only if the default's name was free or it existed |
| Organizations.OrganizationsStore.Add | bolt/organizations.go:105-127 | uninterrupted, refused if and only if the name is taken; a fresh id that is not the default's; names stay unique |
| Organizations.OrganizationsStore.Insert | bolt/organizations.go:110-124 | the inserting transaction on its own, whatever names were added since the check: a fresh id, the new bucket stated whole |
| Organizations.OrganizationsStore.Update | bolt/organizations.go:287-304 | uninterrupted, refused for an unknown id or a name taken by another; names stay unique |
| Organizations.OrganizationsStore.Replace | bolt/organizations.go:296-303 | the writing transaction on its own, which also writes what was deleted since the lookup |
| Organizations.StepKeepsNamesUniqueIff | bolt/organizations.go:105-127 | a transaction keeps names unique if and only if it does not write a name that another organization has by then |
| Organizations.InterleavingKeepsNamesIff | bolt/organizations.go:105-304 | names are unique in every state of an interleaving if and only if none of its transactions does |
| Organizations.TwoAddsOneName | bolt/organizations.go:107-110 | two additions of one name that both checked it first leave two organizations of that name |
| Organizations.OrganizationsStore.DeleteMappings | bolt/organizations.go:208-218 | exactly the mappings of other organizations are left |
| Organizations.OrganizationsStore.DeleteResources | bolt/organizations.go:158-220 | the new contents of all five stores after the cascade |
| Organizations.OrganizationsStore.Delete | bolt/organizations.go:143-221 | the default organization and unknown ones are refused without any change; otherwise the whole state after the deletion |
| Organizations.DeleteLeavesNoTrace | bolt/organizations.go:143-221 | after a deletion no record names the organization, every other organization's records and roles are unchanged up to the default flag of sources, and a default survives if there was one and a source is left |
| Organizations.FreshID | bolt/organizations.go:112-116 | the decimal id made from the sequence is new and never the default's |
| Organizations.MappingsStore.Add | bolt/mapping.go:30-53 | a mapping under an id that none has; the new bucket stated whole |
| Organizations.MappingsStore.All | bolt/mapping.go:55-67 | every mapping once, in any order |
| Organizations.MappingsStore.Delete | bolt/mapping.go:69-81 | removal; an unknown id is refused |
| Handlers.Service.MapPrincipalToRoles | server/mapping.go:32-56 | the labelled loop computes the mapped roles, first mapping to an organization first |
| Handlers.MappedRolesDistinct | server/mapping.go:46-51 | no two mapped roles are for one organization |
| Handlers.MappedRolesIff | server/mapping.go:32-91 | a role is mapped if and only if it is the default role of an existing organization that a mapping names whose provider, scheme and provider organization each are * or the principal's |
| Handlers.Service.Me | server/me.go:222-319 | the user table after a first or repeated login; answered if and only if the current organization exists and the user is known, is a super admin or has a mapped role |
| Handlers.KnownLogin | server/me.go:236-246 | a login of a known user changes nothing but that a super admin of the configuration gets the flag |
| Handlers.FirstLoginGives | server/me.go:272-319 | an unknown user is stored if and only if it is a super admin or a mapping fits, with exactly the mapped roles and, for a super admin whom no mapping places there, the default organization's default role |
| Handlers.Service.UpdateMe | server/me.go:107-172 | answered if and only if the organization exists and the user is a member of it or a super admin, and then as the login after the switch; refused without any change |
| Handlers.SwitchedIsKnown | server/me.go:136-162 | whoever may switch is in the user table afterwards, so the login that follows finds a known user |
| Handlers.SwitchJoins | server/me.go:136-162 | whoever may switch is found in the organization afterwards, with the roles held there or else with its default role |
| Handlers.Service.CheckRoles | server/users.go:50-70 | accepts exactly known role names on pairwise different organizations |
| Handlers.Service.ResolveRoles | server/users.go:365-379 | wildcard roles become default roles in place; a missing organization is refused |
| Handlers.Service.NewUser | server/users.go:159-201 | the user table after creating a user, scoped or raw |
| Handlers.CreatedIsSeen | server/users.go:159-201 | a user created in an organization is found there with the role asked for, the organization's default role for the wildcard |
| Handlers.Service.UpdateUser | server/users.go:237-318 | the user table after updating a user, scoped or raw |
| Handlers.ModifiedIsSeen | server/users.go:237-318 | a member updated in an organization is found there with the role and the flag asked for |
| Handlers.OnlyAdminsSetFlags | server/users.go:341-363 | creating and updating by others than super admins leave exactly the same super admins |
| Handlers.KeepsOwnFlag | server/users.go:294-301 | no super admin takes the flag from itself |
| Handlers.Service.RemoveUser | server/users.go:214-231 | the user table after removing a user, scoped or raw |
| Handlers.RemovedIsGone | server/users.go:214-231 | whoever is removed is not found where the request looked, and from within an organization every other one sees what it saw |
| Handlers.Service.NewOrganization | server/organizations.go:103-152 | refused for a taken name; otherwise, where roles name existing organizations, it succeeds if and only if there is a creator, who then is found in the new organization with exactly the role named admin, alone, while every other organization sees what it saw; without one nothing is changed |
| Handlers.Service.MakeAdmin | server/organizations.go:127-152 | where nobody has a role in the organization, the same for the organization just added; otherwise the creator is added or the organization is deleted and every user is without roles in it |
| Handlers.FounderAdministers | server/organizations.go:127-152 | the account of the founding step that both rest on: the creator, known or not, administers alone |
| Handlers.StepNamed | server/organizations.go:103-202 | every handler step keeps that users have roles only in organizations there are |
| Handlers.RolesAlwaysNamed | server/users.go:365-379 | so does any run of them |
| Handlers.FoundersAdminister | server/organizations.go:103-152 | after any run whoever founds an organization under a new name and id administers it alone, and the other organizations see what they saw |
| Handlers.FacadeKeepsOneRole | organizations/users.go:92-231 | a facade operation keeps one role per user and organization if the roles given have |
| Handlers.StepKeeps | server/me.go:143-319 | every handler step keeps one role per user and organization |
| Handlers.OneRoleAlways | server/auth.go:196-202 | after any run of handler steps no user has two roles in one organization, so the middleware never reports too many |
| Handlers.AuthorizedOnce | server/auth.go:185-208 | in such a state whoever is found in an organization has exactly one role there |
| TagLogic.AcceptsGrammar | influx/query.go:391-446 | unless it meets a nil node, isTagLogic accepts if and only if connectives are AND or OR, every leaf is a time range or a tag filter (which are those: TimeRangeIff, TagFilterIff), and all filters share one operator; its result is the list of filters in order |
| TagLogic.ConvertSeesGrammar | influx/query.go:255-259 | on the reduced conditions that Convert passes on it never meets one, so this is the verdict on every condition |
| TagLogic.TimeRangeIff | influx/query.go:349-366 | a condition is a time range if and only if, up to parentheses at every level, it compares time, in any case of its letters, by <, <=, > or >= with now() or with now() and a duration around a minus, in either order |
| TagLogic.PreviousTimeIff | influx/query.go:332-347 | the same for the side that time is compared with |
| TagLogic.TimeRangeAccepted | influx/query.go:391-403 | every such comparison is accepted, and no filter is taken from it |
| TagLogic.RecentTimes | influx/query.go:332-366 | so are `time > now() - d` and `((now() - d) < TIME)` for every duration |
| TagLogic.TagFilterIff | influx/query.go:466-509 | a condition is a tag filter if and only if, up to parentheses, it compares a name and a text by = or !=, in either order; which filter it is; and a nil node is met exactly where an operand stands in parentheses |
| TagLogic.ReductionKeepsMeaning | vendor/github.com/influxdata/influxdb/influxql/ast.go:4333-4404 | the reduction keeps every truth of conditions that parentheses, literals, AND, OR and the evaluation of literals determine |
| TagLogic.ReductionReduces | vendor/github.com/influxdata/influxdb/influxql/ast.go:4796-4802 | whatever literals evaluate to, in a reduced expression parentheses hold binary expressions only |
| TagLogic.LogicNeverPanics | influx/query.go:391-446 | on such expressions isTagLogic dereferences no nil node |
| TagLogic.ConnectiveAccepts | influx/query.go:402-445 | the same for the step on a binary expression, fast paths included |
| TagLogic.FastPathRight | influx/query.go:410-428 | the shortcuts give what the general rule gives |
| TagLogic.LeafFilters | influx/query.go:349-366 | no expression is a time range and a tag filter, and both are leaves of the grammar |
| TagLogic.ParenthesisedOperandPanics | influx/query.go:482-501 | a filter with a parenthesised tag would be dereferenced as nil, and is accepted once reduced |
| TagLogic.CollectTags | influx/query.go:261-279 | the collected tags hold each tag's values in order; mixed operators are reported; accepted if and only if the operator is == |
| TagLogic.MixedOperatorsNeverReachConvert | influx/query.go:272-275 | the mixed-operator fallback never fires after isTagLogic |
| TagMeaning.ShapeMeaning | influx/query.go:391-446 | an AND of groups on different tags holds if and only if its time ranges do and each tag has a filter that holds |
| TagMeaning.CollectedTagsMeanTheCondition | kapacitor/vars.go:235-256 | for such conditions the collected tags, read as the where filter reads them, mean the condition |
| TagMeaning.TwoGroupsKeptIff | influx/query.go:402-445 | of a connective over two groups of filters: the collected tags mean it for all points if and only if it is an AND on different tags, an OR on one tag, both groups have the same values on one tag, or both are inequalities with several values, which always hold |
| TagMeaning.TimeRangeKeptIff | influx/query.go:419-428 | of a connective over a time range and a group: if and only if it is an AND |
| TagMeaning.TreeKeptIff | influx/query.go:391-446 | of connectives nested to any depth over time ranges and groups on different tags, none of which always holds: if and only if none of them is an OR |
| TagMeaning.KeptByFewPoints | influx/query.go:391-446 | of any accepted condition: the collected tags mean it if and only if they do so on the points made of the condition's own values and one other |
| TagMeaning.TreeAccepted | influx/query.go:391-446 | isTagLogic accepts all of these |
| TagMeaning.PairAccepted | influx/query.go:410-443 | two comparisons with one operator are accepted under AND and OR, whatever their tags |
| TagMeaning.DisjunctionOverTagsIsLost | influx/query.go:430-443 | an OR over two tags is accepted and its collected tags do not mean it |
| TagMeaning.NeitherValueIsLost | influx/query.go:430-443 | an AND of two inequalities on one tag is accepted, and its collected tags are met by every point |
| TagMeaning.DisjunctionWithTimeIsLost | influx/query.go:419-428 | an OR of a time range and a comparison is accepted, and its collected tags do not mean it |
| Placeholders.RawText | influx/query.go:63-88 | the imperative substitution and restoration compute the stated functions, and the text that is parsed holds no :interval: |
| Placeholders.NoIntervalLeft | influx/query.go:63-74 | whatever the text, its substituted form holds no :interval:, neither where one was replaced nor around an inserted sentinel |
| Placeholders.AllRestored | influx/query.go:67-70 | replacing all and replacing back is the identity on text without the sentinel |
| Placeholders.ComesBackLonger | influx/query.go:86-88 | and gives a longer text when the text held a sentinel of its own |
| Placeholders.IntervalRestoredIff | influx/query.go:67-88 | intervals are restored if and only if the text does not hold both the placeholder and its sentinel |
| Placeholders.DashboardRestoredIff | influx/query.go:72-84 | the dashboard time is restored if and only if its sentinel does not stand before the first placeholder |
| Placeholders.NoNewMatch | influx/query.go:67-74 | inserting one sentinel creates no occurrence of the other across its borders |
| Placeholders.RestoredIff | influx/query.go:63-92 | the reported text is the given one if and only if that does not hold both the interval placeholder and its sentinel, and in the substituted text the dashboard sentinel does not stand before the first dashboard time |
| Placeholders.TextRestored | influx/query.go:63-92 | the reported text is the given one whenever that holds neither sentinel |
| WhereFilters.PrintGroup | kapacitor/vars.go:243-248 | the inner loop builds the group of one tag; what its text says: LambdaText.GroupBack |
| WhereFilters.PrintGroups | kapacitor/vars.go:242-249 | ranging over the tags in any order gathers every tag's group once |
| WhereFilters.PrintWhereFilter | kapacitor/vars.go:235-256 | one text for all orders of ranging over the tags; TRUE without tags; what it means: LambdaText.MeaningOfText |
| WhereFilters.OneText | kapacitor/vars.go:250-253 | the sorted text does not depend on the order |
| WhereFilters.ReadWhereFilter | kapacitor/ast.go:91-140 | the loop over the matches of the regular expression fills the tags; refused unless exactly one known operator was seen |
| WhereFilters.ReadTagOf | kapacitor/ast.go:115 | the lazy match reads back one printed comparison, also for tags with harmless quotes in them |
| WhereFilters.FindGroups | kapacitor/ast.go:115-124 | all matches in the printed text are its comparisons, in order |
| WhereFilters.CleanIsReadBack | kapacitor/ast.go:91-140 | clean tags and values are read back |
| WhereFilters.OnlyCleanIsReadBack | kapacitor/ast.go:115-124 | and only those |
| WhereFilters.ReadBackIffClean | kapacitor/ast.go:91-140 | printing then reading gives the tags that have values, their values in order and the operator, if and only if no value holds a single quote, no tag a quote that opens a comparison, and none a newline |
| WhereFilters.PrintedThenRead | kapacitor/vars.go:235-256 | the promised case: without double quotes in tags, single quotes in values and newlines the same map and == exactly when accepted |
| LambdaText.MeaningOfText | kapacitor/vars.go:235-256 | for tags and values the printer need not escape: a parser with TICKscript's precedence reads the whole text as a condition if and only if every tag has a value, and then the condition holds of a point if and only if, for every tag, one of its comparisons does |
| LambdaText.GroupBack | kapacitor/vars.go:243-248 | a printed group, whatever follows it, is read as the OR of its tag's comparisons in order |
| LambdaText.EmptyGroupUnread | kapacitor/vars.go:243-248 | a tag without values is printed as a pair of parentheses that is read as nothing |
| LambdaText.GroupsBack | kapacitor/vars.go:250-253 | the joined groups are read as their AND, in order |
| LambdaText.AnyHolds | kapacitor/vars.go:243-248 | the OR of a tag's comparisons holds of a point if and only if one of them does |
| LambdaText.QuotedBack | vendor/github.com/influxdata/kapacitor/tick/ast/lex.go:550-610 | a name without its quote and without a backslash before the closing one is read back as it was printed |
| LineProtocol.GatherTags | influx/lineprotocol.go:43-49 | every tag with a value gives one text, in any order of ranging |
| LineProtocol.GatherFields | influx/lineprotocol.go:53-71 | every field of a supported type gives one text, in any order of ranging |
| LineProtocol.ToLineProtocol | influx/lineprotocol.go:35-84 | refused without measurement or without fields; otherwise one line for all orders of ranging over tags and fields |
| LineProtocol.TokenBack | influx/lineprotocol.go:11-33 | reading an escaped name up to its separator gives the name back unless it ends in a backslash |
| LineProtocol.TagsBack | influx/lineprotocol.go:43-51 | the printed tags are read back in order |
| LineProtocol.FieldsBack | influx/lineprotocol.go:53-77 | the printed fields are read back in order, with integers, unsigned, booleans, strings and floats told apart |
| LineProtocol.RecoveredIffClean | influx/lineprotocol.go:35-84 | reading the line gives exactly the point's measurement, tags with values, supported fields and time, if and only if every name is non-empty, on one line and without a backslash at its end, every float is printed as a finite number, and, under InfluxDB's own rules, no tag key, tag value or field key holds a double quote |
| LineProtocol.CleanIsSeen | influx/lineprotocol.go:35-84 | a clean point is read completely, under the names as the reader sees them |
| LineProtocol.SeenExactlyIff | influx/lineprotocol.go:11-27 | what was read is the point itself if and only if the reader undoes all escapes or no name and no tag value holds a double quote |
| LineProtocol.OnlyCleanIsRecovered | influx/lineprotocol.go:35-84 | no other point is recovered from any text |
| LineProtocol.QuotesStayEscaped | influx/lineprotocol.go:16-27 | a reader that undoes backslashes only before commas, equals signs and spaces sees a name unchanged if and only if it holds no double quote, and any other name longer than it was |
| LineProtocol.NothingToRead | influx/lineprotocol.go:39-41 | a point with unsupported fields only is printed without an error as a line that cannot be read |
| AnnotationPoints.PointBack | influx/annotations.go:146-168 | the point made of an annotation holds it, tags without a value aside |
| AnnotationPoints.KeyBack | influx/annotations.go:170-192 | the deleting point has the key of the row it was read from |
| AnnotationPoints.Send | influx/influx.go:262-277 | a write prints the point as line protocol, and what is kept is what InfluxDB reads in that line |
| AnnotationPoints.CleanIsKept | influx/lineprotocol.go:35-84 | a point with clean tags is kept with a backslash before every double quote in them, and with the server's time if its own is zero |
| AnnotationPoints.KeptIsClean | influx/lineprotocol.go:35-84 | whatever is written, only clean tags, none of them named time, and a time are kept |
| AnnotationPoints.KeptAsWrittenIff | influx/lineprotocol.go:35-84 | a point is kept under its own key if and only if its tags are clean, unquoted and none is named time, and its time is not zero; and then as it is |
| AnnotationPoints.PrintableIff | influx/annotations.go:146-168 | the same for the point of an annotation |
| AnnotationPoints.StorableIsKept | influx/annotations.go:146-168 | an annotation with clean tags, none named time, and an end other than zero is kept |
| AnnotationPoints.DeletingKey | influx/annotations.go:170-192 | the deleting point is kept under the key of the row it was read from if and only if no tag of that holds a double quote |
| Annotations.DecodeRow | influx/annotations.go:250-318 | the five required columns are looked up and typed, or the row is refused; text columns that may be tags are tags |
| Annotations.RowBack | influx/annotations.go:250-318 | an annotation stored in a row is read back from it, whatever the order of the columns |
| Annotations.MergeSeries | influx/annotations.go:246-329 | the rows of one series are merged into the annotations so far |
| Annotations.Annotations | influx/annotations.go:243-329 | the nested loops merge the rows of all series in order, or fail if one cannot be read |
| Annotations.MergeKeepsLatest | influx/annotations.go:320-327 | one record per id, one that was modified last |
| Annotations.MergeShows | influx/annotations.go:320-333 | whatever the order of the rows, what is shown for an id is its row modified last |
| Annotations.AnnotationStore.All | influx/annotations.go:48-63 | per id the latest of the live rows in the window that pass every tag filter; for bounds in order, the versions that ListsWhatOverlaps says |
| Annotations.AnnotationStore.Get | influx/annotations.go:65-75 | the latest live row of the id, or not found |
| Annotations.AnnotationStore.Add | influx/annotations.go:77-87 | one point is written, as the line protocol makes it, or refused; a storable annotation is then shown as it was kept |
| Annotations.AnnotationStore.Update | influx/annotations.go:100-121 | the rows after an update, whichever of its writes succeeded; once the first has, a storable new version is shown as it was kept |
| Annotations.AnnotationStore.Delete | influx/annotations.go:89-99 | the rows after a deletion; the id is gone if and only if it had one live row and no tag of that holds a double quote |
| Annotations.UpdateIsShown | influx/annotations.go:102-121 | an update is shown as it was kept, whether or not its second write happened, and whatever rows earlier failures left |
| Annotations.UpdateLeavesOthers | influx/annotations.go:102-121 | and shows nothing else for other ids |
| Annotations.DeleteRemovesIff | influx/annotations.go:89-99 | a deletion makes the id not found if and only if it had exactly one live row and no tag of that holds a double quote |
| Annotations.DeleteLeavesOthers | influx/annotations.go:89-99 | and shows nothing else for other ids |
| Annotations.QuotedStays | influx/annotations.go:89-99 | an annotation with a double quote in a tag is still shown after its deletion |
| Annotations.QuotedTag | influx/annotations.go:77-99 | the smallest one: added with a quote, shown with a backslash before it, and shown after its deletion |
| Annotations.ShownAndDeletableIff | influx/annotations.go:77-99 | an annotation under a new id is shown as it was written and gone after its deletion, if and only if its tags are clean, unquoted and none is named time, and its end is not zero |
| Annotations.RetaggedThenDeleted | influx/annotations.go:112-120 | changing the tags and then deleting brings the annotation back with its old tags |
| Annotations.RunShowsLastWritten | influx/annotations.go:77-121 | after any run of additions and updates of storable annotations, each update perhaps stopping after its first write, and deletions of ids with one live row, every id shows exactly what was last written under it, as it was kept; a deletion of a quoted annotation counts for nothing |
| Annotations.WindowShowsCurrentIff | influx/annotations.go:18-19 | a listing shows the current version of an id if and only if its latest row is in the window and passes every filter; which rows those are: SoughtIff |
| Annotations.SoughtIff | influx/annotations.go:18-19 | for bounds in order, a live row that does not end before it starts is selected if and only if some moment lies both in its annotation and between the bounds and every filter holds on it |
| Annotations.ListsWhatOverlaps | influx/annotations.go:48-63 | so the listing shows the current version of an id if and only if its own row is such a row, an older version only if its own row is, and something whenever a row of the id is |
| Annotations.ListedInside | influx/annotations.go:18-19 | an annotation from 140 to 150 is listed from 100 to 200, and not with the bounds 1000 and 100 |
| Permissions.ToPriv | influx/permissions.go:216-241 | the loop computes the privilege whose name gives exactly the rights that one of the allowances gives |
| Permissions.ExactlyIff | influx/permissions.go:217-232 | the rights of a list are those that one of its names gives: READ reading, WRITE writing, ALL both, any other none |
| Permissions.RightsUnion | influx/permissions.go:221-232 | a list gives the union of what its parts give |
| Permissions.PrivGives | influx/permissions.go:233-241 | the name chosen for a set of rights gives exactly these |
| Permissions.AllIsReadAndWrite | influx/permissions.go:209-241 | ALL is granted exactly like reading and writing together |
| Permissions.Difference | influx/permissions.go:243-278 | the nested loops compute what to add and what to revoke |
| Permissions.OnlyCommandOn | influx/permissions.go:188-214 | on each database there is at most one command, and which |
| Permissions.RightsAfter | influx/permissions.go:188-278 | the rights on a database after the commands, in any order and however repeated |
| Permissions.AdminAfter | influx/users.go:94-106 | whether the user is an administrator after grants and then revokes |
| Permissions.UpdateMeetsIff | influx/users.go:82-107 | on every wanted database the account ends with exactly the rights that one of the allowances gives, with none on the others and as administrator if and only if wanted, whatever it had, if and only if no rights are held where only unknown allowances are asked for and an administrator who stays one is asked for by an entry without a name |
| Permissions.CommandsCommute | influx/users.go:96-106 | grants and revokes may be run in any order |
| Permissions.HalfwayIsOldOrNew | influx/users.go:94-106 | wherever a failing query stops the update, the rights on each database and the administrator's flag are those before or those after the whole update |
| Permissions.Client.UserPermissions | influx/permissions.go:145-177 | the reported rights, in any order of databases |
| Permissions.Client.Get | influx/users.go:56-79 | administrator entry and database rights of a known user |
| Permissions.Client.Update | influx/users.go:82-107 | a password change touches no permission; an unknown user or a failing listing changes nothing; otherwise the account after the grants and then the revokes up to the first query that fails; if none fails, the account meets what is wanted exactly when UpdateMeetsIff says |
| Enterprise.Difference | enterprise/meta.go:365-392 | the nested loops compute the two differences, in order |
| Enterprise.PermissionsDifference | enterprise/meta.go:394-416 | the differences per database, in any order of ranging |
| Enterprise.DifferenceIsMinimal | enterprise/meta.go:394-416 | nothing wanted is revoked and nothing held is added |
| Enterprise.AddingMeets | enterprise/meta.go:206-227 | after both steps exactly the wanted permissions are held |
| Enterprise.MetaClient.SetUserPerms | enterprise/meta.go:199-229 | the user ends with exactly the wanted permissions; if a post fails, with what was held and wanted at least and nothing beyond what was held or wanted |
| Enterprise.MetaClient.SetRolePerms | enterprise/meta.go:319-349 | the same for a role |
| Enterprise.MetaClient.SetRoleUsers | enterprise/meta.go:351-363 | the same for the users of a role |
| Enterprise.UserRoles | enterprise/meta.go:231-250 | each user's roles are the roles that list the user, in order |
| Enterprise.RolesOfInverse | enterprise/meta.go:238-248 | a role is among a user's roles if and only if the user is among its users |
| Enterprise.MetaClient.Update | enterprise/users.go:80-130 | roles are joined and left one post after the other up to the first failure, then permissions set, exactly or, if one of their posts fails, to something between those held and those wanted; an unknown user is reported; a failing listing of roles is reported as success and changes nothing |
| Enterprise.KeptThroughout | enterprise/users.go:107-122 | after every post the user is in all roles wanted and held before, and in none that is neither |
| Enterprise.WantedInTheEnd | enterprise/users.go:107-122 | in the end the user is in exactly the wanted roles that exist |
| Enterprise.OthersStay | enterprise/users.go:110-122 | other users' roles and all roles' permissions are unchanged |
| Enterprise.ConvertToEnterprise | enterprise/users.go:163-175 | the loop computes the map, the empty key for the all-scope |
| Enterprise.ConvertToChronograf | enterprise/users.go:177-197 | the loop lists every entry once, in any order: that of the empty key for all databases without a name, that of any other key for the database of that name; converting back gives the map |
| Enterprise.RoundTrip | enterprise/users.go:163-197 | converting to the list and back is the identity, in any order |
| Sessions.NewCookieJWT | oauth2/cookies.go:28-47 | the inactivity is at most five minutes and never longer than the lifespan, half of it if shorter; every fresh token of the cookie is accepted if and only if the lifespan is not between two nanoseconds and a second |
| Sessions.Authorize | oauth2/cookies.go:84-103 | the token validates as its principal, issued and expiring in the seconds of now and of now plus inactivity; its cookie expires a lifespan from now, or with the browser session |
| Sessions.Extend | oauth2/cookies.go:59-82 | the extended token validates as the same principal with the same time of issue, expiring in the second of now plus inactivity; its cookie expires a lifespan after the issue |
| Sessions.StepInv | oauth2/jwt.go:230-262 | issue claims stay the whole second of the last authorization |
| Sessions.RunInv | oauth2/cookies.go:59-103 | in every session |
| Sessions.NoLongerThanLifespan | oauth2/jwt.go:187-196 | after any chain of extensions an accepted token is in whole seconds no later than the lifespan after its authorization, and less than a second later in nanoseconds |
| Sessions.LifespanOvershot | oauth2/jwt.go:187-196 | a session accepted past its lifespan by less than a second |
| Sessions.WithinLifespanIff | oauth2/jwt.go:187-196 | to the nanosecond: no chain of requests is accepted past the lifespan if and only if the fractions of a second of start and lifespan add up to at least a second less a nanosecond, or not even the fresh token is accepted |
| Sessions.RenewedAcceptedIff | oauth2/jwt.go:166-206 | a renewed token is accepted if and only if its expiry is not past and was left within the lifespan |
| Sessions.ActiveStaysAccepted | oauth2/cookies.go:59-82 | a session whose gaps stay within the expiry and whose extensions come by issue plus lifespan minus inactivity is accepted at every request |
| Sessions.FreshAlwaysAcceptedIff | oauth2/cookies.go:34-36 | every fresh token is accepted despite rounding to seconds if and only if the lifespan is not between two nanoseconds and a second |
| Sessions.IssuedKept | oauth2/cookies.go:77-79 | the time of authorization stays as long as no switch of the organization is accepted |
| Sessions.EndsWithoutSwitches | oauth2/jwt.go:187-196 | so without one a session ends less than a second after its lifespan |
| Sessions.SwitchingOutlivesLifespan | server/me.go:178-184 | switching organizations authorizes anew: for every lifespan of a second or more and every moment there are switches by which a session is accepted after both |
| Text.SortIsOrdered | influx/lineprotocol.go:51 | sorting gives an ordered permutation |
| Text.OneSorting | influx/lineprotocol.go:43-51 | the sorted texts of a map's keys do not depend on the order of ranging |
| Text.DecimalInjective | bolt/organizations.go:116 | different sequence numbers have different numerals |
| Text.SignedRoundTrip | influx/lineprotocol.go:57-60 | decimal numerals are read back |

## Left out

- HTTP handling, JSON, links, gzip, logging, configuration and the user interface: presentation.
- Bolt itself, protobuf codecs, JWT signing, InfluxQL parsing: taken as given; the models start from maps, claims, syntax trees and the canonical lambda text. Of TICKscript only the conditions of a where filter are parsed.
- The branch of ListTasks that passes a limit or an offset straight on, and a fetch rate of zero: a single call, and a configuration that is never made.
- Responses without a flusher and SVG paths in the prefixer, which are passed on unchanged; the growth of the prefixer's buffer is not modelled, any bytes may be behind its window.
- The context checks of the facades (`validOrganization`): facades are only made for a present organization.
- Add, Get and Update of the source, server and dashboard facades: a field set or compared.
- A principal's groups are given as a list, already split at commas.
- `cmd/chronoctl/add.go`: it writes users outside of the handlers.
- `hasTimeRange` and the rest of `Convert` (fields, group by, fill): one visitor and a list of cases.
- ReadTagOf: `\s` is the five spaces of Go's regular expressions; queries start from the expression's text.
- Float fields are the text that `%f` prints; the loss in printing a float is not modelled, and NaN and infinities are read by no reader.
- Integers are unbounded: 64-bit numbers are only printed, compared and added to times far from the limits; durations saturating at 292 years are not modelled.
- Annotations.Annotations: the order of the list is left open, because the comparison it is sorted with is no strict order.
- Retries of a write after creating the database, and the errors of the hinted handoff queue that count as success; a line that is read without the four fields of an annotation counts as refused.
- The handlers' steps are uninterrupted calls; interleavings are those of Sources, Organizations and UserRaces.
- What a tag filter of an annotation listing means is InfluxDB's; a filter is any condition on a row.
- Permissions.UpdateMeetsIff: wanted permissions have distinct keys; with two entries for one database it is not said which of them is wanted.
- What two literals evaluate to when a condition is reduced: any function does; nil literals and regular expressions are among the other expressions.
- TagMeaning.TreeKeptIff: one tag in several groups, and groups that always hold; for two groups side by side these are in `TwoGroupsKeptIff`, and for any condition `KeptByFewPoints` leaves finitely many points to look at.
- LambdaText.MeaningOfText: tags with a double quote, values with a single quote, and names that end in a backslash, which the printer does not escape; the parser of the model reads no text in triple quotes, no comments and no operators but those the printer writes, and lets a keyword end anywhere.
- Annotations.ListsWhatOverlaps: a row that ends before it starts has no moment; whether it is listed is said by the window alone.
- An empty attribute of the URL prefixer: its attributes are constants.
- Enterprise.MetaClient.Update: password changes are left out; they touch neither roles nor permissions.
