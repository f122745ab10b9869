# pacman core, modelled in Dafny

This project models the core of **pacman**, the proxy manager in the
`gilliginsisland/flakes` repository. It proves properties of that model.
The modelled parts are:

- **Host rule tries.**
  - `DNS`: exact, `.domain` and `*.domain` rules, with a reversed-label
    fail-fast tree.
  - `Zone`: wildcard rules only.
  - The rule `Trie`, which dispatches to host, zone and CIDR tables and
    walks them.
  - The first-match `CIDR` list.
- **The throttling `Counter`.**
- **Menu construction.** The grouped `Menu` with icons and actions, the
  separated menu sections, and the dialer-pool items.
- **Supporting parts.**
  - The sorted map iterator.
  - The environment `Decoder`.
- **The OpenConnect binding.**
  - Form processors.
  - The Go callback trampolines and their return codes.
  - The C progress callback and its heap buffer.
  - `VpnInfo` creation, option parsing, teardown and errno mapping.
- **The CSD host-scan side.**
  - The manifest field parser.
  - The reflective `key="value";` marshaler for strings, bools, integers,
    structs and string-keyed maps.
- **Two proxy auto-configuration scripts**, served by the SOCKS proxy and
  by the HTTP proxy.
- **The dialers.**
  - The user-space stack dialer.
  - The suffix-rewriting dialer.
  - The ordered dialer chain.
- **The create-once pool.**
- **The packet logger's decoding decisions.**

Each Go object that is updated in place is a Dafny `class`. Its methods
are proved against a specification function of the old state. Pure Go
functions become Dafny functions. Lemmas relate the specification
functions to what the code promises: round trips, preserved invariants,
precedence, ordering and error paths.

Go's `strings`, `strconv`, `net` and JSON string helpers that the core
calls are modelled in `text.dfy`, `strconv.dfy`, `netaddr.dfy` and
`json.dfy`. Map iteration order, the network, the resolver, the OpenConnect
library and the allocator are not modelled. They become parameters, whose
possible answers the properties quantify over.

## Model

| member | source | states |
|---|---|---|
| `LabelTrie.CanonicalIsFixed` | packages/pacman/pkg/trie/dns.go:125-127 | canonicalising a host twice gives the same as once |
| `LabelTrie.CanonicalIgnoresCase` | packages/pacman/pkg/trie/dns.go:125-127 | lowering a host first does not change its canonical form |
| `LabelTrie.GrowTree` | packages/pacman/pkg/trie/dns.go:59-73 | the descend-then-hang loop builds exactly the tree `Grow` describes: the existing path is followed and the missing tail hung below the first absent label, with a leaf at the end |
| `LabelTrie.GrowKeepsWellformed` | packages/pacman/pkg/trie/dns.go:56-74 | adding a zone and growing its path keeps every leaf tied to a stored zone and every stored zone's path in the tree |
| `LabelTrie.Lookup` | packages/pacman/pkg/trie/dns.go:85-118 | the reversed-label descent answers as `Expected`: a leaf answers with its zone's value, a missing or inner node hands over to the backtracking scan |
| `LabelTrie.ScanSuffixes` | packages/pacman/pkg/trie/dns.go:105-116 | the offset-based scan of `host[offset:]` tries the label suffixes from the given one outwards and returns the first stored one |
| `LabelTrie.BacktrackFinds` | packages/pacman/pkg/trie/dns.go:110-116 | a backtracking hit is the value of the most specific stored suffix at or past the start; a miss means no such suffix is stored |
| `LabelTrie.SuffixAt` | packages/pacman/pkg/trie/dns.go:105-111 | `host[offset:]` after skipping `k` labels and their dots is exactly the suffix of labels `k..` |
| `LabelTrie.ExpectedIsSuffixValue` | packages/pacman/pkg/trie/dns.go:85-118 | every wildcard answer is the value stored for some label suffix of the host |
| `LabelTrie.ZoneMatchesItsBase` | packages/pacman/base/src/pkg/trie/zone.go:18-44 | a zone that was not an inner node matches its own base name after it is inserted |
| `LabelTrie.DeeperZoneHidesBase` | packages/pacman/base/src/pkg/trie/zone.go:31-43 | once a deeper zone below it is inserted, a zone's base name is answered only by backtracking to a shorter suffix; this is the as-written effect of the nil-leaf tree |
| `DnsTrie.DNS.constructor` | packages/pacman/pkg/trie/dns.go:20-26 | a new DNS has empty tables and a well-formed tree |
| `DnsTrie.DNS.Insert` | packages/pacman/pkg/trie/dns.go:33-48 | the new tables are `Inserted(old, host, value)`, and the tree stays well formed |
| `DnsTrie.DNS.InsertHost` | packages/pacman/pkg/trie/dns.go:51-53 | only the exact table changes, at the host |
| `DnsTrie.DNS.InsertWildcard` | packages/pacman/pkg/trie/dns.go:56-74 | the wildcard table gains the suffix, the tree grows its path, the exact table is unchanged, and the tree stays well formed |
| `DnsTrie.DNS.Match` | packages/pacman/pkg/trie/dns.go:77-119 | the answer is `Matched`: the exact table first, then the wildcard lookup |
| `DnsTrie.InsertedKeepsWellformed` | packages/pacman/pkg/trie/dns.go:33-74 | every insertion keeps tree and wildcard table in step |
| `DnsTrie.MatchIgnoresCase` | packages/pacman/pkg/trie/dns.go:77-78 | matching a lowered or canonicalised host answers as matching the host |
| `DnsTrie.StarRuleIsWildcardOnly` | packages/pacman/pkg/trie/dns.go:36-40 | a `*.x` rule enters the wildcard table under `x` and leaves the exact table unchanged |
| `DnsTrie.DotRuleIsBoth` | packages/pacman/pkg/trie/dns.go:42-47 | a `.x` rule enters both tables under `x` |
| `DnsTrie.PlainRuleIsExactOnly` | packages/pacman/pkg/trie/dns.go:47 | any other rule enters the exact table only |
| `DnsTrie.PlainRuleMatches` | packages/pacman/pkg/trie/dns.go:47-83 | a plain rule is found by every spelling of the host that canonicalises the same |
| `DnsTrie.DotRuleMatchesBase` | packages/pacman/pkg/trie/dns.go:42-83 | a `.x` rule answers for `x` itself |
| `DnsTrie.StarRuleMatchesSubdomain` | packages/pacman/pkg/trie/dns.go:36-116 | a `*.x` rule answers for `a.x` when no more specific rule exists for it |
| `DnsTrie.HitIsRuleForSuffix` | packages/pacman/pkg/trie/dns.go:77-119 | every answer is the exact rule for the host or the wildcard rule of one of its label suffixes |
| `DnsTrie.ExactRuleWins` | packages/pacman/pkg/trie/dns.go:80-83 | an exact rule takes precedence over every wildcard rule |
| `ZoneTrie.Zone.Insert` | packages/pacman/base/src/pkg/trie/zone.go:18-44 | the tables are created on first use, the value is stored under the canonical zone, the tree grows its path, and the tree stays well formed |
| `ZoneTrie.Zone.Match` | packages/pacman/base/src/pkg/trie/zone.go:47-87 | the answer is the reversed-label lookup with backtracking |
| `ZoneTrie.EmptyZoneMatchesNothing` | packages/pacman/base/src/pkg/trie/zone.go:85-86 | a zone with no rules answers nothing |
| `ZoneTrie.ZoneHitIsSuffix` | packages/pacman/base/src/pkg/trie/zone.go:47-87 | every answer is the value of a stored label suffix of the canonical host |
| `ZoneTrie.ZoneMissHasNoSuffix` | packages/pacman/base/src/pkg/trie/zone.go:70-86 | when nothing is answered, no proper label suffix of the host is stored |
| `ZoneTrie.ZoneCoversSubdomain` | packages/pacman/base/src/pkg/trie/zone.go:47-87 | a stored zone answers for its one-label subdomains that hold no rule of their own |
| `RuleTrie.Trie.constructor` | packages/pacman/base/src/pkg/trie/trie.go:9-13 | a new trie has empty host, zone and CIDR tables |
| `RuleTrie.Trie.Insert` | packages/pacman/base/src/pkg/trie/trie.go:18-29 | the new state is `AfterInsert(old, rule, value)`, and the zone tree stays well formed and every network canonical |
| `RuleTrie.Trie.InsertNetwork` | packages/pacman/base/src/pkg/trie/trie.go:19-20 | a parsed CIDR goes to the network list only, which stays canonical; hosts and zones are unchanged |
| `RuleTrie.Trie.InsertZone` | packages/pacman/base/src/pkg/trie/trie.go:21-25 | a `.x` or `*.x` rule grows the zone tree and sets the zone value, `.x` also sets the exact host, and the networks are unchanged |
| `RuleTrie.Trie.Match` | packages/pacman/base/src/pkg/trie/trie.go:31-40 | the answer is `Matched`: host table, then the CIDR list for an IP literal, otherwise the zone lookup |
| `RuleTrie.Trie.Walk` | packages/pacman/base/src/pkg/trie/trie.go:44-60 | the yielded pairs are the hosts, then `*.zone` for every zone, then every network in list order, up to and including the first pair `yield` refuses |
| `RuleTrie.WalkZones` | packages/pacman/base/src/pkg/trie/trie.go:50-54 | the zone loop yields `*.zone` pairs until refused and reports whether every pair was accepted |
| `RuleTrie.WalkNets` | packages/pacman/base/src/pkg/trie/trie.go:55-59 | the CIDR loop yields each network's text and value until refused and reports whether every pair was accepted |
| `RuleTrie.CidrRuleIsListOnly` | packages/pacman/base/src/pkg/trie/trie.go:19-20 | a rule that parses as a CIDR only enters the CIDR list |
| `RuleTrie.DotRuleIsZoneAndHost` | packages/pacman/base/src/pkg/trie/trie.go:21-23 | a `.x` rule enters the host table under `x` and the zone table under canonical `x`, and not the CIDR list |
| `RuleTrie.StarRuleIsZoneOnly` | packages/pacman/base/src/pkg/trie/trie.go:24-25 | a `*.x` rule enters only the zone table |
| `RuleTrie.OtherRuleIsHostOnly` | packages/pacman/base/src/pkg/trie/trie.go:26-27 | any other rule enters only the host table |
| `RuleTrie.NoDigitNoCidr` | packages/pacman/base/src/pkg/trie/trie.go:19 | a rule not starting with a digit never parses as a CIDR, so `.x` and `*.x` rules reach their branches |
| `RuleTrie.ExactRuleFirst` | packages/pacman/base/src/pkg/trie/trie.go:32-34 | a host rule takes precedence over networks and zones |
| `RuleTrie.IpLiteralSkipsZones` | packages/pacman/base/src/pkg/trie/trie.go:35-38 | an IP literal with no host rule is answered by the CIDR list alone |
| `RuleTrie.CidrRuleCovers` | packages/pacman/base/src/pkg/trie/trie.go:19-38 | after a CIDR rule is inserted, every address it contains matches something |
| `RuleTrie.AfterInsertKeepsWellformed` | packages/pacman/base/src/pkg/trie/trie.go:18-29 | every insertion keeps the zone tree in step with the zone table |
| `RuleTrie.ZoneRouteGrows` | packages/pacman/base/src/pkg/trie/trie.go:21-25 | zone rules grow the tree along the canonical base and store the value under it |
| `RuleTrie.OtherRoutesKeepZones` | packages/pacman/base/src/pkg/trie/trie.go:19-27 | CIDR and host rules leave the zone tree and the zone table unchanged |
| `RuleTrie.HostRuleMatches` | packages/pacman/base/src/pkg/trie/trie.go:26-34 | a host rule matches its own name afterwards |
| `CidrList.CIDR.constructor` | packages/pacman/pkg/trie/cidr.go:13 | a new list is empty |
| `CidrList.CIDR.Insert` | packages/pacman/pkg/trie/cidr.go:15-27 | the new list is `Inserted(old, entry)`: reading the list as it was when the call began, a copy is put in at each position whose mask is shorter, and the entry is appended |
| `CidrList.CIDR.Match` | packages/pacman/pkg/trie/cidr.go:29-37 | the answer is the value of the first entry whose network contains the address |
| `CidrList.InsertedContents` | packages/pacman/pkg/trie/cidr.go:15-27 | under the snapshot reading, the list grows by one copy per shorter existing mask plus the appended one; it ends with the new entry, and nothing else is added |
| `CidrList.InsertedKeepsOrder` | packages/pacman/pkg/trie/cidr.go:19-24 | with the new entry's copies removed, the list is unchanged, so the other entries keep their order |
| `CidrList.InsertedFrom` | packages/pacman/pkg/trie/cidr.go:15-27 | every entry afterwards is an old entry or the new one |
| `CidrList.InsertedAheadOfShorter` | packages/pacman/pkg/trie/cidr.go:19-24 | the new entry lands just ahead of the first entry with a shorter mask, and the entries before it stay |
| `CidrList.FirstMatchFinds` | packages/pacman/pkg/trie/cidr.go:29-37 | a hit is the first containing entry's value, and a miss means no entry contains the address |
| `CidrList.ExtraCopiesIgnored` | packages/pacman/pkg/trie/cidr.go:19-36 | after the first copy of the new entry, further copies of it change no answer of `Match`, so the number of duplicates an insertion leaves does not affect lookups |
| `CidrList.InsertedCovers` | packages/pacman/pkg/trie/cidr.go:15-37 | after an insertion every address of the inserted network matches |
| `Iteration.YieldEntries` | packages/pacman/pkg/iterutil/maps.go:17-21 | the loop calls `yield` on the entries in the given key order, up to and including the first refusal |
| `Iteration.YieldedIsPrefix` | packages/pacman/pkg/iterutil/maps.go:17-21 | the calls made are a prefix of the items; all but the last were accepted, and a short prefix ends at a refusal |
| `Iteration.Chained` | packages/pacman/base/src/pkg/trie/trie.go:44-60 | three loops that each return on refusal yield as one loop over the concatenation |
| `Iteration.NeverStops` | packages/pacman/pkg/iterutil/maps.go:17-21 | when every item is accepted, every item is yielded |
| `SortedMap.Sort` | packages/pacman/pkg/iterutil/maps.go:16 | sorting the collected keys gives `SortedOf(keys)`, the same keys in ascending order |
| `SortedMap.SortedMapIter` | packages/pacman/pkg/iterutil/maps.go:10-23 | the keys in whatever order `range` gives them are sorted, and the entries are yielded in that order until refused |
| `SortedMap.SortedOfAscending` | packages/pacman/pkg/iterutil/maps.go:12-16 | distinct keys come out strictly ascending |
| `SortedMap.AscendingUnique` | packages/pacman/pkg/iterutil/maps.go:16 | two ascending sequences of the same keys are equal |
| `SortedMap.SortedIterationIsDeterministic` | packages/pacman/pkg/iterutil/maps.go:10-23 | the iteration order is the ascending key order of the map, whatever order `range` visits the keys in |
| `SortedMap.EmptyMapYieldsNothing` | packages/pacman/pkg/iterutil/maps.go:12-21 | an empty map yields nothing |
| `SortedMap.LessTransitive` | packages/pacman/pkg/iterutil/maps.go:16 | Go's string order is transitive |
| `SortedMap.LessTotal` | packages/pacman/pkg/iterutil/maps.go:16 | Go's string order is total on distinct strings |
| `Throttle.CutFrom` | packages/pacman/pkg/throttle/counter.go:33-39 | the cut index is the first timestamp after the cutoff, or 0 when none is |
| `Throttle.Counter.constructor` | packages/pacman/pkg/throttle/counter.go:8-13 | a counter starts with no timestamps and the zero value |
| `Throttle.Counter.Prune` | packages/pacman/pkg/throttle/counter.go:30-44 | the timestamps become `Pruned(old, now, window)`, and the last value is kept |
| `Throttle.Counter.Increment` | packages/pacman/pkg/throttle/counter.go:16-27 | prune, append `now`, remember the value; the answer is whether the count exceeds the maximum |
| `Throttle.Counter.Count` | packages/pacman/pkg/throttle/counter.go:47-50 | prune, then the number of timestamps left |
| `Throttle.Counter.Reset` | packages/pacman/pkg/throttle/counter.go:53-57 | no timestamps and the zero value |
| `Throttle.Counter.Throttled` | packages/pacman/pkg/throttle/counter.go:60-63 | prune, then whether the count exceeds the maximum |
| `Throttle.Counter.Force` | packages/pacman/pkg/throttle/counter.go:66-75 | the value is remembered, and the timestamps are `MaxCount + 1` copies of `now` |
| `Throttle.Counter.Last` | packages/pacman/pkg/throttle/counter.go:78-85 | prune; then the last value and the newest timestamp, or the zero value, time 0 and false when none is left |
| `Throttle.PrunedIsStaleSuffix` | packages/pacman/pkg/throttle/counter.go:30-44 | pruning drops only a prefix of timestamps at or before the cutoff, and keeps everything when the first timestamp is fresh or when none is |
| `Throttle.PrunedIsWindow` | packages/pacman/pkg/throttle/counter.go:30-44 | for ascending timestamps with at least one fresh, exactly the fresh ones remain |
| `Throttle.PruneIsIdempotent` | packages/pacman/pkg/throttle/counter.go:30-44 | pruning twice at the same time is pruning once |
| `Throttle.ForcedStaysThrottled` | packages/pacman/pkg/throttle/counter.go:66-75 | after `Force`, the counter reads throttled at every later time |
| `Throttle.StaleKeptWithoutFreshEvent` | packages/pacman/pkg/throttle/counter.go:33-43 | when every timestamp is stale, nothing is pruned (the cut index stays 0) |
| `Throttle.IncrementKeepsAscending` | packages/pacman/pkg/throttle/counter.go:19-22 | with a non-decreasing clock the timestamps stay ascending |
| `GroupedMenu.Menu.constructor` | packages/pacman/internal/app/menu.go:11-14 | a new menu has no items and no groups |
| `GroupedMenu.Menu.Insert` | packages/pacman/internal/app/menu.go:30-48 | the item goes in at the end of its group; later groups start one further on and their nodes are rebound to their shifted slots; the groups are the old ones with the item added to that group |
| `GroupedMenu.Menu.AddChild` | packages/pacman/internal/app/menu.go:63-65 | the item becomes the last of its group, and the returned node points at it |
| `GroupedMenu.Menu.AddGroup` | packages/pacman/internal/app/menu.go:17-26 | a new group starts at the end of the items; every group but the first opens with a separator |
| `GroupedMenu.Menu.Children` | packages/pacman/internal/app/menu.go:51-53 | the menu's items are its groups laid end to end |
| `GroupedMenu.ShiftLater` | packages/pacman/internal/app/menu.go:39-45 | the groups after the one inserted into start one later, keep their sizes, and every node of theirs points at its shifted slot |
| `GroupedMenu.GroupsTileItems` | packages/pacman/internal/app/menu.go:55-60 | the groups tile the flat item slice without gap or overlap |
| `GroupedMenu.InsertedGroups` | packages/pacman/internal/app/menu.go:30-45 | inserting into one group changes that group only, by appending the item |
| `GroupedMenu.AscendingStarts` | packages/pacman/internal/app/menu.go:39-45 | groups follow each other in order: an earlier group ends before a later one starts |
| `GroupedMenu.RootMenu` | packages/pacman/internal/app/menu.go:106-127 | the root menu is the server heading, then a separator and the proxies heading, then a separator and "Edit RuleSet", and the settings node points at "Edit RuleSet" |
| `GroupedMenu.MenuNode.constructor` | packages/pacman/internal/app/menu.go:68-72 | a new node has no children and no wiring |
| `GroupedMenu.MenuNode.AddChild` | packages/pacman/internal/app/menu.go:75-93 | the item is appended to the children; every child node is rebound to its slot; the node's own item is wired to its children when it has one |
| `GroupedMenu.Icon` | packages/pacman/internal/app/menu.go:141-153 | each of the four connection states has an icon and any other state none |
| `GroupedMenu.IconsDistinct` | packages/pacman/internal/app/menu.go:141-153 | the four states have four different icons |
| `GroupedMenu.Action` | packages/pacman/internal/app/menu.go:155-165 | Offline and Failed read "Connect", Online reads "Disconnect", Connecting reads "Connecting...", each text for those states only; only Online gets the close handler; any other state gets no text |
| `MenuSections.Section` | packages/pacman/app/menu.go:19-31 | the title as a medium-weight heading, then exactly the content's items when there is a content |
| `MenuSections.StaticItem` | packages/pacman/app/menu.go:72-76 | the one item itself |
| `MenuSections.AddrItem` | packages/pacman/app/menu.go:82-87 | one light-weight item holding the address text |
| `MenuSections.CountSlots` | packages/pacman/app/menu.go:43-48 | the total is the sum of the section lengths plus one separator slot each |
| `MenuSections.CopyInto` | packages/pacman/app/menu.go:53 | the items are copied in at the index, and the slots before it are kept |
| `MenuSections.Sections` | packages/pacman/app/menu.go:35-62 | the output is the sections joined by separators, with the last separator cut, and nothing for no sections |
| `MenuSections.SeparatedLength` | packages/pacman/app/menu.go:43-50 | the filled buffer holds every item and one separator per section |
| `MenuSections.SectionsLength` | packages/pacman/app/menu.go:50-59 | the result holds every item and one separator fewer than there are sections |
| `MenuSections.EndsWithLastSection` | packages/pacman/app/menu.go:52-59 | the result ends with the last section's items, not a separator |
| `MenuSections.SectionInPlace` | packages/pacman/app/menu.go:51-57 | each section sits intact at its offset, followed by a separator |
| `MenuSections.NoSectionsNoItems` | packages/pacman/app/menu.go:37-38 | no sections give no items |
| `MenuSections.DialerPoolItems` | packages/pacman/app/menu.go:89-97 | one item per dialer, the i-th being the menu item of the dialer with the i-th name in ascending order |
| `MenuSections.FillItems` | packages/pacman/app/menu.go:91-95 | the loop stores each yielded dialer's item at the next index |
| `MenuSections.DialerItemsIndependentOfOrder` | packages/pacman/app/menu.go:89-97 | the items do not depend on the order in which the map is ranged over |
| `EnvDecoder.EntryOf` | packages/pacman/pkg/env/env.go:18-21 | an entry is split exactly when it holds `=`, at the first one: the key holds no `=`, and key, `=` and value spell the entry |
| `EnvDecoder.Decoder.constructor` | packages/pacman/pkg/env/env.go:15-25 | the table is `EnvOf(environ)`, the entries read in order |
| `EnvDecoder.EntrySplitsAtFirstEquals` | packages/pacman/pkg/env/env.go:18-21 | `k=v` with `k` free of `=` gives key `k` and value `v`, even when `v` holds `=` |
| `EnvDecoder.LaterEntryOverrides` | packages/pacman/pkg/env/env.go:17-22 | a later entry for a key replaces an earlier one |
| `EnvDecoder.EntryWithoutEqualsIgnored` | packages/pacman/pkg/env/env.go:18 | an entry without `=` changes nothing |
| `EnvDecoder.EnvKeysFromEntries` | packages/pacman/pkg/env/env.go:15-25 | every key of the table comes from some entry with that key and value, and holds no `=` |
| `EnvDecoder.Decoder.Unmarshal` | packages/pacman/pkg/env/env.go:27-80 | a target that is not a non-nil pointer, or that points at a non-struct, is refused with nothing set; otherwise the error and the field values are those of the field loop `DecodeFields` |
| `EnvDecoder.DecodeLoop` | packages/pacman/pkg/env/env.go:39-79 | the field loop computes `DecodeFields` from the first field |
| `EnvDecoder.ReadOptions` | packages/pacman/pkg/env/env.go:54-64 | the option loop computes `TagOptions` |
| `EnvDecoder.TagOptionsMeaning` | packages/pacman/pkg/env/env.go:54-64 | options are accepted exactly when each is `required` or empty, and then the field is required exactly when `required` is among them; otherwise the error names the first other option |
| `EnvDecoder.OnlyPresentKeysSet` | packages/pacman/pkg/env/env.go:41-77 | only settable, tagged fields whose key is present in the table are changed |
| `EnvDecoder.SuccessMeansEveryFieldDecoded` | packages/pacman/pkg/env/env.go:39-79 | when no error is returned, every tagged field had valid options, required keys were present, and every present key's text converted to the field's new value |
| `EnvDecoder.MissingRequiredKeyFails` | packages/pacman/pkg/env/env.go:39-72 | for any target, a tagged required field whose key is missing makes the field loop fail, at that field or earlier; reaching the field, it fails with an error naming key and field and sets nothing more |
| `EnvDecoder.BaseKind` | packages/pacman/pkg/env/env.go:96-100 | the kind reached through every pointer is not a pointer |
| `EnvDecoder.ConvertFollowsPointers` | packages/pacman/pkg/env/env.go:96-131 | a pointer field converts as the kind it finally points at; strings are taken as they are; a kind outside the supported ones is refused as unsupported |
| `EnvDecoder.IntFieldReadsFormattedValue` | packages/pacman/pkg/env/env.go:105-110 | a signed field of any width reads back every in-range number written in decimal |
| `EnvDecoder.UintFieldReadsFormattedValue` | packages/pacman/pkg/env/env.go:111-116 | an unsigned field of any width reads back every in-range number written in decimal |
| `EnvDecoder.Bits` | packages/pacman/pkg/env/env.go:106-112 | every field width is at least 8 bits |
| `Strconv.ParseFormatInt` | packages/pacman/pkg/env/env.go:106 | `ParseInt` of the decimal form of an in-range number gives the number back |
| `Strconv.ParseFormatUint` | packages/pacman/pkg/env/env.go:112 | `ParseUint` of the decimal form of an in-range number gives the number back |
| `Strconv.ParseBool` | packages/pacman/pkg/env/env.go:118 | exactly the twelve spellings of true and false parse |
| `AuthForms.AuthForm.constructor` | packages/pacman/pkg/openconnect/form.go:50-56 | a form starts with no values written |
| `AuthForms.AuthForm.SetValue` | packages/pacman/pkg/openconnect/form.go:41-48 | the option's engine handle now holds the value and no other handle changes |
| `AuthForms.TypeName` | packages/pacman/pkg/openconnect/form.go:15-26 | the seven named kinds have a non-empty name of their own; any other number prints as `FormOptionType(n)` |
| `AuthForms.Process` | packages/pacman/base/src/pkg/openconnect/processor.go:16-26 | dispatching on the processor kind gives the result, values and log records of `Run` |
| `AuthForms.ProcessCredentials` | packages/pacman/base/src/pkg/openconnect/processor.go:35-47 | the loop writes the username into text options whose lower-cased name starts with `user`, and the password into password options, in order |
| `AuthForms.CredentialsWritesOnlyCredentials` | packages/pacman/base/src/pkg/openconnect/processor.go:36-45 | with distinct handles, a handle is written exactly when it was already written or names a username or password option; it then holds the username or the password; other handles keep their values |
| `AuthForms.ProcessLogger` | packages/pacman/base/src/pkg/openconnect/processor.go:53-74 | the logger emits the form header, then per option its record followed by its choices' records |
| `AuthForms.LogOptions` | packages/pacman/base/src/pkg/openconnect/processor.go:60-72 | the option loop appends, per option, its record and then its choices' records |
| `AuthForms.LogChoices` | packages/pacman/base/src/pkg/openconnect/processor.go:66-71 | the choice loop appends one record per choice |
| `AuthForms.ChoiceRecords` | packages/pacman/base/src/pkg/openconnect/processor.go:66-71 | one record per choice |
| `AuthForms.LoggerOnlyLogs` | packages/pacman/base/src/pkg/openconnect/processor.go:53-74 | the logger answers OK, writes nothing, and logs at least one record more than there are options |
| `AuthForms.OptionRecordsLength` | packages/pacman/base/src/pkg/openconnect/processor.go:60-72 | at least one record per option |
| `AuthForms.ProcessAggregate` | packages/pacman/base/src/pkg/openconnect/processor.go:80-87 | the aggregate loop computes `RunAll` from its first processor |
| `AuthForms.ShiftedAggregate` | packages/pacman/base/src/pkg/openconnect/processor.go:81-85 | running the aggregate from position i is running the aggregate of the remaining processors |
| `AuthForms.AggregateStopsAtFirstFailure` | packages/pacman/base/src/pkg/openconnect/processor.go:82-83 | the first processor that does not answer OK decides the aggregate's result, values and log |
| `AuthForms.AggregateContinuesAfterOk` | packages/pacman/base/src/pkg/openconnect/processor.go:81-85 | after an OK, the rest of the aggregate runs on the values and log it left |
| `AuthForms.EmptyAggregateIsOk` | packages/pacman/base/src/pkg/openconnect/processor.go:86 | an empty aggregate answers OK and changes nothing |
| `AuthForms.FnAnswersItsResult` | packages/pacman/base/src/pkg/openconnect/processor.go:24-26 | a function processor answers its function's result, the form holds the values the function wrote, and nothing is logged |
| `AuthForms.LoggedFn` | packages/pacman/base/src/pkg/openconnect/processor.go:80-86 | an aggregate of a logger and a function processor logs the form, then gives the function's result and values, whether or not that result is OK |
| `AuthForms.CredentialsAsFn` | packages/pacman/base/src/pkg/openconnect/processor.go:21-46 | the credentials processor written as a function processor behaves exactly like the credentials processor |
| `OcBridge.GoString` | packages/pacman/base/src/pkg/openconnect/bridge.go:34-36 | a NULL pointer reads as the empty string; otherwise the result is no longer than the buffer and holds no NUL |
| `OcBridge.GoStringWhole` | packages/pacman/base/src/pkg/openconnect/bridge.go:34-36 | a text without NUL is read whole |
| `OcBridge.ChoicesOf` | packages/pacman/base/src/pkg/openconnect/bridge.go:73-79 | one Go choice per C choice, in order, each read field by field |
| `OcBridge.ConvertChoices` | packages/pacman/base/src/pkg/openconnect/bridge.go:42-48 | the choice loop fills the slice with `ChoicesOf` |
| `OcBridge.ConvertOptions` | packages/pacman/base/src/pkg/openconnect/bridge.go:58-84 | the option loop computes `KeptOptions` |
| `OcBridge.ConvertForm` | packages/pacman/base/src/pkg/openconnect/bridge.go:33-84 | the Go form is `FormOf` the engine form |
| `OcBridge.KeptOptionsAppend` | packages/pacman/base/src/pkg/openconnect/bridge.go:58-84 | converting a list in two parts gives the two conversions one after the other, so the loop keeps list order |
| `OcBridge.KeptSingle` | packages/pacman/base/src/pkg/openconnect/bridge.go:59-61 | a single ignored option disappears; any other is converted |
| `OcBridge.KeptOptionsMembers` | packages/pacman/base/src/pkg/openconnect/bridge.go:58-84 | an option is in the Go form exactly when it converts some option not flagged as ignored |
| `OcBridge.KeptFrom` | packages/pacman/base/src/pkg/openconnect/bridge.go:58-84 | every option of the Go form converts an engine option not flagged as ignored |
| `OcBridge.KeptHas` | packages/pacman/base/src/pkg/openconnect/bridge.go:58-84 | every engine option not flagged as ignored is in the Go form |
| `OcBridge.SelectChoicesExact` | packages/pacman/base/src/pkg/openconnect/bridge.go:70-81 | a select option carries all its choices converted in order, any other option none; the authgroup carries all its choices |
| `OcBridge.ValidatePeerCert` | packages/pacman/base/src/pkg/openconnect/bridge.go:14-23 | 0 exactly when a session is registered for the context, has a certificate check, and that check accepts the certificate text; 1 otherwise |
| `OcBridge.ProcessAuthForm` | packages/pacman/base/src/pkg/openconnect/bridge.go:26-88 | without a registered session or form callback the result is the error code; otherwise the callback runs on the converted form and its result, truncated to a C `int`, is returned; the values it wrote and its log are kept |
| `OcBridge.Progress` | packages/pacman/base/src/pkg/openconnect/bridge.go:91-97 | the progress callback is called, with the level and the message text, exactly when one is registered for the context |
| `OcBridge.ExternalBrowser` | packages/pacman/base/src/pkg/openconnect/bridge.go:100-111 | 0 exactly when a registered browser callback returns no error; 1 otherwise |
| `OcBridge.Reconnected` | packages/pacman/base/src/pkg/openconnect/bridge.go:114-120 | the reconnect handler is called exactly when one is registered for the context |
| `OcBridge.MainloopResult` | packages/pacman/base/src/pkg/openconnect/bridge.go:123-130 | an unknown session changes nothing; a known one records the main-loop error, is freed and leaves the table |
| `CBridge.MeasuredLength` | packages/pacman/pkg/openconnect/bridge.c:17 | the measured length is an `int` of at least -1, and the text's length when that fits |
| `CBridge.Needed` | packages/pacman/pkg/openconnect/bridge.c:17 | the buffer size is the measured length plus one, positive exactly when the measured length is between 0 and `INT_MAX - 1`; at `INT_MAX` the model takes the two's-complement wrap |
| `CBridge.CString` | packages/pacman/pkg/openconnect/bridge.c:32-36 | what a C string read gives is no longer than the buffer and holds no NUL |
| `CBridge.CStringStopsAtFirstNul` | packages/pacman/pkg/openconnect/bridge.c:32-36 | the string read is a prefix of the buffer, followed by a NUL when shorter |
| `CBridge.TerminatedCString` | packages/pacman/pkg/openconnect/bridge.c:32 | the terminator `vsnprintf` writes does not change the text read |
| `CBridge.NoNulWholeString` | packages/pacman/pkg/openconnect/bridge.c:32-36 | a text without NUL is read whole |
| `CBridge.ReadCString` | packages/pacman/pkg/openconnect/bridge.c:36 | scanning a NUL-terminated buffer gives `CString` of its contents |
| `CBridge.ProgressVargs` | packages/pacman/pkg/openconnect/bridge.c:12-40 | the allocations, progress call and release happen as `ProgressEvents` says |
| `CBridge.FormatErrorDoesNothing` | packages/pacman/pkg/openconnect/bridge.c:20-22 | a formatting error allocates nothing and calls nothing |
| `CBridge.MallocFailureCallsNothing` | packages/pacman/pkg/openconnect/bridge.c:25-28 | a failed allocation is never followed by a progress call |
| `CBridge.SuccessCallsOnceThenFrees` | packages/pacman/pkg/openconnect/bridge.c:17-39 | a text that fits is allocated with one byte more, delivered once and freed |
| `CBridge.AtMostOneCallback` | packages/pacman/pkg/openconnect/bridge.c:12-40 | at most three events; a progress call is only ever followed by the release; a successful allocation is always released |
| `CBridge.LongestTextWraps` | packages/pacman/pkg/openconnect/bridge.c:17-22 | for a text of `INT_MAX` characters the `+ 1` overflows; taking the overflow as a two's-complement wrap to `INT_MIN`, nothing is allocated or delivered |
| `CBridge.GoVpninfoNew` | packages/pacman/pkg/openconnect/bridge.c:42-55 | the session is created with the callbacks and private data, and the browser callback is set on what it returned |
| `OcEngine.Engine.constructor` | packages/pacman/pkg/openconnect/vpninfo.go:96 | no library call has been made yet |
| `OcEngine.Engine.Call` | packages/pacman/pkg/openconnect/vpninfo.go:178 | a call is recorded after the earlier ones and its return code is an `int` |
| `OcEngine.Engine.New` | packages/pacman/pkg/openconnect/bridge.c:43-49 | creating a session is recorded and answers the address the library hands out |
| `OcEngine.Int32Of` | packages/pacman/pkg/openconnect/vpninfo.go:221-223 | `C.int(x)` is a 32-bit signed value, equal to x when x fits |
| `OcEngine.Uint32Of` | packages/pacman/pkg/openconnect/vpninfo.go:234 | `C.uid_t(uid)` is a 32-bit unsigned value, equal to uid when it fits |
| `OcEngine.ConversionsKeepLowBits` | packages/pacman/pkg/openconnect/vpninfo.go:222-234 | both conversions keep the low 32 bits, and converting through `int` first gives the same unsigned value |
| `OcSession.ErrnoOf` | packages/pacman/pkg/openconnect/vpninfo.go:297 | `syscall.Errno(-rc)`: the negated code for a negative code, and the 64-bit wrap of the negation otherwise, including `INT_MIN` negating to itself |
| `OcSession.OcErrno` | packages/pacman/pkg/openconnect/vpninfo.go:293-298 | no error exactly for code 0; otherwise the error carries the context and a nonzero errno |
| `OcSession.NegativeCodeIsErrno` | packages/pacman/pkg/openconnect/vpninfo.go:297 | a negative code other than `INT_MIN` gives its negation as errno |
| `OcSession.StepAt` | packages/pacman/pkg/openconnect/vpninfo.go:132-172 | each position makes at most one call |
| `OcSession.RunSteps` | packages/pacman/pkg/openconnect/vpninfo.go:132-172 | running calls only appends, at most one per step |
| `OcSession.RunStepsCons` | packages/pacman/pkg/openconnect/vpninfo.go:137-141 | a checked call with a nonzero code stops with its error; otherwise the rest runs after it |
| `OcSession.AcceptedStepContinues` | packages/pacman/pkg/openconnect/vpninfo.go:137-141 | a call answering 0 lets the rest run |
| `OcSession.RunStepsStopsAtFirstError` | packages/pacman/pkg/openconnect/vpninfo.go:132-172 | the calls made are the first n steps in order; with no error all of them; with an error the last call made was a checked one and its code gives the error |
| `OcSession.ParseOptsRunsPlan` | packages/pacman/pkg/openconnect/vpninfo.go:132-172 | the option sequence is running the plan of set options in order |
| `OcSession.InPlan` | packages/pacman/pkg/openconnect/vpninfo.go:132-172 | a call is in the plan exactly when some position makes it |
| `OcSession.StepsDistinct` | packages/pacman/pkg/openconnect/vpninfo.go:135-169 | the seven positions make different calls |
| `OcSession.PlanHasOnlySetOptions` | packages/pacman/pkg/openconnect/vpninfo.go:135-169 | a position's call is in the plan exactly when its option is set; the log level is always set first |
| `OcSession.VpnInfo.constructor` | packages/pacman/pkg/openconnect/vpninfo.go:101-104 | a session starts open, without error and without callbacks |
| `OcSession.VpnInfo.ParseOpts` | packages/pacman/pkg/openconnect/vpninfo.go:132-172 | the callbacks are taken from the options and the library calls are the plan run up to the first error |
| `OcSession.VpnInfo.Free` | packages/pacman/pkg/openconnect/vpninfo.go:118-130 | a freed session changes nothing; otherwise the library frees it, it leaves the table and is marked done |
| `OcSession.SetSessionLogLevel` | packages/pacman/pkg/openconnect/vpninfo.go:221-223 | one unchecked call with the level as an `int` |
| `OcSession.SetSessionDpd` | packages/pacman/pkg/openconnect/vpninfo.go:253-255 | one unchecked call with the interval as an `int` |
| `OcSession.Checked` | packages/pacman/pkg/openconnect/vpninfo.go:174-185 | one call whose code becomes the error under the setter's context |
| `OcSession.ApplyOptions` | packages/pacman/pkg/openconnect/vpninfo.go:135-153 | the first four positions are applied in order, then the rest |
| `OcSession.ApplyLaterOptions` | packages/pacman/pkg/openconnect/vpninfo.go:155-171 | the CSD wrapper, dead peer detection and insecure crypto are applied in order |
| `OcSession.Handles.constructor` | packages/pacman/pkg/openconnect/vpninfo.go:46 | the session table starts empty |
| `OcSession.UserAgentFor` | packages/pacman/pkg/openconnect/vpninfo.go:89-91 | the given user agent, else the protocol's known one, else empty |
| `OcSession.New` | packages/pacman/pkg/openconnect/vpninfo.go:88-115 | a NULL session fails with nothing registered; a failing option frees the session and removes it from the table; otherwise the fresh session is registered under its address and found there by its callback context |
| `OcSession.Handles.Store` | packages/pacman/pkg/openconnect/vpninfo.go:105 | the session is entered under its own address and the table stays keyed by live addresses |
| `OcSession.Configure` | packages/pacman/pkg/openconnect/vpninfo.go:107-111 | the options run as the plan; on an error the session is freed and dropped from the table, otherwise it is kept with its callbacks |
| `HostscanManifest.UnmarshalField` | packages/pacman/base/src/pkg/openconnect/hostscan/manifest.go:23-46 | a decode error is returned with the field untouched; a decoded element never fails |
| `HostscanManifest.JoinIsNested` | packages/pacman/base/src/pkg/openconnect/hostscan/manifest.go:10 | the seven pieces cut at quotes join back to the quoted triple |
| `HostscanManifest.QuotedIsJoin` | packages/pacman/base/src/pkg/openconnect/hostscan/manifest.go:10 | a quoted triple is its seven pieces joined by quotes |
| `HostscanManifest.MatchTripleExact` | packages/pacman/base/src/pkg/openconnect/hostscan/manifest.go:10-34 | the pattern matches with submatches a, b, c exactly when each is non-empty and free of quotes and the value is `'a','b','c'` |
| `HostscanManifest.ListEntrySetsParts` | packages/pacman/base/src/pkg/openconnect/hostscan/manifest.go:33-38 | a list entry whose value matches sets type, label and value from the three submatches |
| `HostscanManifest.ListEntryMismatchKeepsField` | packages/pacman/base/src/pkg/openconnect/hostscan/manifest.go:33-38 | a list entry whose value does not match leaves the field as it was |
| `HostscanManifest.InspectorEntry` | packages/pacman/base/src/pkg/openconnect/hostscan/manifest.go:39-42 | an inspector entry sets type `Inspector` and the value as both label and value |
| `HostscanManifest.OtherNameKeepsField` | packages/pacman/base/src/pkg/openconnect/hostscan/manifest.go:32-45 | any other name leaves the field as it was |
| `CsdMarshal.Writer.constructor` | packages/pacman/base/src/pkg/openconnect/hostscan/internal/marshaler/encoder.go:24-26 | the writer starts empty with no writes |
| `CsdMarshal.Writer.WriteString` | packages/pacman/pkg/openconnect/hostscan/internal/marshaler/primitive.go:13 | a write is counted; a failed one adds nothing, a successful one appends the text |
| `CsdMarshal.NewMarshaler` | packages/pacman/base/src/pkg/openconnect/hostscan/internal/marshaler/marshaler.go:12-44 | builds `MarshalerFor` the type |
| `CsdMarshal.KindDispatch` | packages/pacman/base/src/pkg/openconnect/hostscan/internal/marshaler/marshaler.go:13-43 | strings, bools, signed and unsigned integers of every width get their scalar marshaler; any other kind gets none |
| `CsdMarshal.NewMapMarshaler` | packages/pacman/pkg/openconnect/hostscan/internal/marshaler/map.go:34-48 | builds `MarshalerFor` the map type |
| `CsdMarshal.MapNeedsStringKeys` | packages/pacman/pkg/openconnect/hostscan/internal/marshaler/map.go:34-48 | a map has a marshaler exactly when its key is a string and its element has one, which it then wraps |
| `CsdMarshal.NewStructMarshaler` | packages/pacman/pkg/openconnect/hostscan/internal/marshaler/struct.go:34-49 | builds the field list `FieldsFrom` the first field |
| `CsdMarshal.NewFieldMarshaler` | packages/pacman/pkg/openconnect/hostscan/internal/marshaler/struct.go:51-67 | builds `FieldFor` the struct field |
| `CsdMarshal.FieldsFromSound` | packages/pacman/pkg/openconnect/hostscan/internal/marshaler/struct.go:36-45 | every field marshaler points at a tagged field with a marshaler, with that tag and that marshaler |
| `CsdMarshal.FieldsFromOrdered` | packages/pacman/pkg/openconnect/hostscan/internal/marshaler/struct.go:36-45 | field marshalers follow the field order |
| `CsdMarshal.FieldsFromComplete` | packages/pacman/pkg/openconnect/hostscan/internal/marshaler/struct.go:36-62 | a field is marshalled exactly when it has a `csd` tag and its type has a marshaler |
| `CsdMarshal.TypedValuesMatch` | packages/pacman/base/src/pkg/openconnect/hostscan/internal/marshaler/marshaler.go:12-44 | a marshaler built for a type accepts every value of that type |
| `CsdMarshal.MarshalValue` | packages/pacman/base/src/pkg/openconnect/hostscan/internal/marshaler/marshaler.go:8-10 | writing a value under a path feeds its `Lines` to the writer, stopping at the first failed write |
| `CsdMarshal.MarshalScalar` | packages/pacman/pkg/openconnect/hostscan/internal/marshaler/primitive.go:12-15 | one line `p="text";` |
| `CsdMarshal.MarshalStruct` | packages/pacman/pkg/openconnect/hostscan/internal/marshaler/struct.go:12-22 | the fields' lines in order under the dotted path, stopping at the first failed write |
| `CsdMarshal.MarshalField` | packages/pacman/pkg/openconnect/hostscan/internal/marshaler/struct.go:30-32 | the field's lines under the path followed by its tag |
| `CsdMarshal.MarshalMap` | packages/pacman/pkg/openconnect/hostscan/internal/marshaler/map.go:13-32 | nothing for an empty map; otherwise per key its `{}` header and its element's lines, stopping at the first failed write |
| `CsdMarshal.Encode` | packages/pacman/base/src/pkg/openconnect/hostscan/internal/marshaler/encoder.go:14-22 | a type without marshaler is refused and nothing is written; otherwise the value's lines are fed to the writer, and an error means a write failed |
| `CsdMarshal.Marshal` | packages/pacman/base/src/pkg/openconnect/hostscan/internal/marshaler/encoder.go:28-33 | into a string builder the whole output is the concatenated lines and there is no error, except for a type without marshaler |
| `CsdMarshal.FeedAppend` | packages/pacman/pkg/openconnect/hostscan/internal/marshaler/map.go:19-29 | writing two batches is writing the first and, if it succeeded, the second |
| `CsdMarshal.FeedReliable` | packages/pacman/pkg/openconnect/hostscan/internal/marshaler/primitive.go:13 | a writer that never fails ends with all the lines appended |
| `CsdMarshal.FeedKeepsPrefix` | packages/pacman/pkg/openconnect/hostscan/internal/marshaler/primitive.go:13 | after a failure the writer holds exactly the lines before the failed one |
| `CsdMarshal.ScalarLine` | packages/pacman/pkg/openconnect/hostscan/internal/marshaler/primitive.go:13 | a scalar's one line is the path, `="`, the text and `";` followed by a newline |
| `CsdMarshal.IntTextReadsBack` | packages/pacman/pkg/openconnect/hostscan/internal/marshaler/primitive.go:25-27 | a signed value's text parses back to it |
| `CsdMarshal.UintTextReadsBack` | packages/pacman/pkg/openconnect/hostscan/internal/marshaler/primitive.go:29-31 | an unsigned value's text parses back to it |
| `CsdMarshal.BoolAndStringText` | packages/pacman/pkg/openconnect/hostscan/internal/marshaler/primitive.go:17-23 | booleans print as `true`/`false` and parse back; strings print as they are |
| `CsdMarshal.EmptyMapWritesNothing` | packages/pacman/pkg/openconnect/hostscan/internal/marshaler/map.go:14-17 | an empty map writes nothing |
| `CsdMarshal.LinesHavePrefix` | packages/pacman/pkg/openconnect/hostscan/internal/marshaler/struct.go:12-17 | every line written for a value starts with its path |
| `CsdMarshal.FieldLinesHavePrefix` | packages/pacman/pkg/openconnect/hostscan/internal/marshaler/struct.go:16-32 | every field's lines start with the struct's path and the field's own tag |
| `CsdMarshal.EntryLinesHavePrefix` | packages/pacman/pkg/openconnect/hostscan/internal/marshaler/map.go:19-29 | every entry's lines start with the map's path |
| `CsdMarshal.EntryLinesAreBlocks` | packages/pacman/pkg/openconnect/hostscan/internal/marshaler/map.go:19-29 | a map's output is one block per key, in the order the keys were visited |
| `CsdMarshal.BlocksAppend` | packages/pacman/pkg/openconnect/hostscan/internal/marshaler/map.go:19-29 | blocks of two runs of keys are the two runs of blocks |
| `CsdMarshal.BlocksSplit` | packages/pacman/pkg/openconnect/hostscan/internal/marshaler/map.go:19-29 | an entry's block sits between the blocks of the keys before and after it |
| `CsdMarshal.BlocksAround` | packages/pacman/pkg/openconnect/hostscan/internal/marshaler/map.go:19-29 | taking one entry out removes exactly its block from the multiset of blocks |
| `CsdMarshal.BlocksPermute` | packages/pacman/pkg/openconnect/hostscan/internal/marshaler/map.go:19 | any two visiting orders of the same entries give the same blocks, only reordered |
| `ProxyPac.Conditions` | packages/pacman/pkg/proxy/pac.go:27-30 | one JavaScript test per host matcher |
| `ProxyPac.Entries` | packages/pacman/pkg/proxy/pac.go:32-48 | one directive per proxy |
| `ProxyPac.FillConditions` | packages/pacman/pkg/proxy/pac.go:27-30 | the condition loop fills a fresh array with `Conditions` |
| `ProxyPac.FillEntries` | packages/pacman/pkg/proxy/pac.go:32-48 | the proxy loop fills a fresh array with `Entries` |
| `ProxyPac.ServeHTTP` | packages/pacman/pkg/proxy/pac.go:21-61 | the writes are the header, one line per rule that has hosts and proxies, the `DIRECT` fallback and the closing brace |
| `ProxyPac.EmitRule` | packages/pacman/pkg/proxy/pac.go:27-56 | a rule gives its `if` line exactly when it has hosts and proxies, built from their conditions and directives |
| `ProxyPac.ScriptFrame` | packages/pacman/pkg/proxy/pac.go:24-60 | the script opens with the function header and ends with the `DIRECT` return and the closing brace, with at most one line per rule between |
| `ProxyPac.SingleRuleLine` | packages/pacman/pkg/proxy/pac.go:50-56 | a rule writes a line exactly when it has at least one host and one proxy: its tests joined by `||` and its directives joined by `;` |
| `ProxyPac.RuleLinesAtMost` | packages/pacman/pkg/proxy/pac.go:26-57 | at most one line per rule |
| `ProxyPac.RuleLinesAppend` | packages/pacman/pkg/proxy/pac.go:26-57 | rules write their lines in rule order |
| `ProxyPac.RuleLinesStep` | packages/pacman/pkg/proxy/pac.go:26-57 | one pass of the rule loop adds that rule's line |
| `ProxyPac.ValidRulesSuffix` | packages/pacman/pkg/proxy/pac.go:26 | the rules still to visit are well formed |
| `ProxyPac.HttpIsProxy` | packages/pacman/pkg/proxy/pac.go:85-90 | an `http` scheme in any letter case gives `PROXY host` |
| `ProxyPac.ProxyOnlyForHttp` | packages/pacman/pkg/proxy/pac.go:85-88 | `PROXY` replaces only a scheme that is `http` in some letter case |
| `ProxyPac.UpperLowerChar` | packages/pacman/pkg/proxy/pac.go:85 | an upper-case letter is the upper case of a character exactly when both have the same lower case |
| `ProxyPac.Socks5AddsSocks` | packages/pacman/pkg/proxy/pac.go:92-95 | a SOCKS5 proxy also offers the plain `SOCKS` directive |
| `ProxyPac.RoutedProxyGoesThroughServer` | packages/pacman/pkg/proxy/pac.go:34-47 | a proxy with an unusable scheme, or whose host the rules route, is reached through the PAC server itself; any other gets its own directive |
| `HttpPac.ServeHTTP` | packages/pacman/pkg/httpproxy/pac.go:24-52 | the writes are `PacWrites` of the walked hosts |
| `HttpPac.WriteCases` | packages/pacman/pkg/httpproxy/pac.go:33-42 | the host loop writes the `case` lines of the exact hosts and collects the tests of the others, both in visiting order |
| `HttpPac.Classify` | packages/pacman/pkg/httpproxy/pac.go:34-41 | a host becomes a suffix test carrying Go's UTF-8 byte length of the suffix, a network test or a `case` line, as `EntryFor` dispatches |
| `HttpPac.WildcardTestMeansSuffix` | packages/pacman/pkg/httpproxy/pac.go:34-36 | for an ASCII zone, `*.zone` becomes a test that reads back as `.zone` with its byte length equal to its length, and the JavaScript substring test holds exactly when the host ends with `.zone` |
| `HttpPac.NonAsciiZoneTestMisses` | packages/pacman/pkg/httpproxy/pac.go:34-36 | for a zone with a non-ASCII character, the byte length written exceeds the character length, so the test holds for no host but `.zone` itself |
| `Text.Utf8Len` | packages/pacman/pkg/httpproxy/pac.go:36 | Go's `len` of a string is at least its character count, and equal to it exactly for ASCII text |
| `HttpPac.CidrBecomesNetTest` | packages/pacman/pkg/httpproxy/pac.go:37-38 | a CIDR key becomes an `isInNet` test of its network |
| `HttpPac.ExactHostBecomesCase` | packages/pacman/pkg/httpproxy/pac.go:39-41 | any other key becomes a `case` whose quoted text reads back as the host |
| `HttpPac.EachHostOnce` | packages/pacman/pkg/httpproxy/pac.go:33-42 | each host gives exactly one test or one case |
| `HttpPac.ChecksAndCasesAppend` | packages/pacman/pkg/httpproxy/pac.go:33-42 | tests and cases keep the walking order |
| `HttpPac.ScriptFrame` | packages/pacman/pkg/httpproxy/pac.go:29-51 | the script has the switch prologue, one case per exact host, the proxy return, the `if` over all tests, the proxy return again, and the `DIRECT` return; with no tests the `if` condition is empty |
| `StackDialer.DialContext` | packages/pacman/pkg/stackutil/dialer.go:27-75 | the loop returns `DialOutcome`: exactly one of a connection and an error |
| `StackDialer.TryAll` | packages/pacman/pkg/stackutil/dialer.go:47-74 | the address loop returns `TryIPs` from the first address with no errors collected |
| `StackDialer.TryIPsOutcome` | packages/pacman/pkg/stackutil/dialer.go:49-74 | the address loop gives a connection exactly when it gives no error |
| `StackDialer.SplitNetworkExact` | packages/pacman/pkg/stackutil/dialer.go:86-93 | exactly the six networks are accepted, split into `tcp`/`udp` and a version ``, `4` or `6` that spell the network; any other is an unknown-network error naming it |
| `StackDialer.ProtocolNumberCases` | packages/pacman/pkg/stackutil/dialer.go:77-84 | IPv4 for 4-byte and IPv4-mapped 16-byte addresses, IPv6 for other 16-byte ones, 0 for any other length |
| `StackDialer.BadPortFailsBeforeLookup` | packages/pacman/pkg/stackutil/dialer.go:37-40 | a non-numeric port fails with the `invalid port` error whatever the resolver and the stack would answer |
| `StackDialer.FirstSuccessWins` | packages/pacman/pkg/stackutil/dialer.go:49-67 | the first address, in lookup order, that connects gives the connection |
| `StackDialer.AllFailJoined` | packages/pacman/pkg/stackutil/dialer.go:68-74 | when every address fails, one error per address joined in dialling order, or `no suitable IP addresses found` when there is none |
| `StackDialer.DialsWrappedPort` | packages/pacman/pkg/stackutil/dialer.go:50-60 | tcp and udp dial the address with the port's low 16 bits and its protocol number |
| `RewritingDialer.SplitPartsAreClean` | packages/pacman/base/src/pkg/dialer/rewriting.go:27 | a split host holds no bracket, a split port no colon and no bracket |
| `RewritingDialer.RewriteKeepsPort` | packages/pacman/base/src/pkg/dialer/rewriting.go:27-42 | refused exactly when the host is the bare suffix, with `Invalid hostname`; a host ending in the suffix is replaced by what precedes it, keeping the port; any other address is passed on unchanged |
| `RewritingDialer.StripsSuffix` | packages/pacman/base/src/pkg/dialer/rewriting.go:33-39 | `sub.suffix:port` becomes `sub:port` |
| `RewritingDialer.RefusedWithoutDialling` | packages/pacman/base/src/pkg/dialer/rewriting.go:27-38 | an unsplittable address or a bare-suffix host fails whatever the wrapped dialer would answer |
| `NetAddr.SplitJoinHostPort` | packages/pacman/base/src/pkg/dialer/rewriting.go:39 | splitting a joined host and port gives them back |
| `DialChain.DialContext` | packages/pacman/base/src/pkg/dialer/chain.go:19-33 | the loop returns `TryFrom` the first dialer |
| `DialChain.ReachesTry` | packages/pacman/base/src/pkg/dialer/chain.go:21-31 | while the context is live and dialers fail, the loop reaches try k with their errors collected |
| `DialChain.FirstSuccessReturned` | packages/pacman/base/src/pkg/dialer/chain.go:26-27 | the first dialer that connects gives the connection, after k + 1 tries |
| `DialChain.CancelledStops` | packages/pacman/base/src/pkg/dialer/chain.go:22-24 | a context error before a try is returned and no further dialer is asked |
| `DialChain.AllFailJoined` | packages/pacman/base/src/pkg/dialer/chain.go:29-32 | when all fail, their errors joined in order; an empty chain gives neither connection nor error |
| `DialChain.ErrorsInOrder` | packages/pacman/base/src/pkg/dialer/chain.go:29 | the collected errors are the dialers' errors, one per dialer, in order |
| `SyncPool.Pool.constructor` | packages/pacman/internal/syncutil/pool.go:15-20 | the pool starts empty with no factory calls |
| `SyncPool.Pool.Get` | packages/pacman/internal/syncutil/pool.go:23-50 | the new state and the answer are `GetStep` of the old state |
| `SyncPool.Pool.Delete` | packages/pacman/internal/syncutil/pool.go:53-57 | the key is removed and nothing else changes |
| `SyncPool.PresentKeyNoCall` | packages/pacman/internal/syncutil/pool.go:25-30 | a stored key answers its value without calling the factory |
| `SyncPool.AbsentKeyCallsOnce` | packages/pacman/internal/syncutil/pool.go:42-49 | a missing key calls the factory once; a value is stored and every other entry kept; an error stores nothing |
| `SyncPool.GetTwiceSame` | packages/pacman/internal/syncutil/pool.go:23-50 | after a successful get, getting again answers the same value and changes nothing |
| `SyncPool.DeleteThenGetRebuilds` | packages/pacman/internal/syncutil/pool.go:42-57 | after a delete the key is gone, the other entries stay, and the next get calls the factory again |
| `SyncPool.GetKeepsBuilt` | packages/pacman/internal/syncutil/pool.go:42-49 | every stored value is still one the factory answered for its key |
| `SyncPool.DeleteKeepsBuilt` | packages/pacman/internal/syncutil/pool.go:53-57 | deleting keeps every stored value one the factory answered |
| `PacketDump.AsText` | packages/pacman/internal/netutil/packet.go:108 | one character per byte, with the byte's code |
| `PacketDump.EmptyPacketNotParsed` | packages/pacman/internal/netutil/packet.go:13-16 | exactly an empty packet is not decoded |
| `PacketDump.FirstLayerCases` | packages/pacman/internal/netutil/packet.go:18-31 | link captures start at Ethernet; IP captures at IPv4 or IPv6 exactly for a first nibble of 4 or 6; other chains at raw payload |
| `PacketDump.IsHTTPExact` | packages/pacman/internal/netutil/packet.go:135-143 | HTTP exactly when the text starts with one of the seven request or response prefixes |
| `PacketDump.ClientHelloIsNotHttp` | packages/pacman/internal/netutil/packet.go:135-151 | a TLS ClientHello never looks like HTTP, so it is reported with its length |
| `PacketDump.HttpRequestLine` | packages/pacman/internal/netutil/packet.go:109-113 | an HTTP payload is reported by its request line, which holds no newline |
| `PacketDump.TrimSpaceIsInfix` | packages/pacman/internal/netutil/packet.go:112 | trimming keeps only characters of the line |
| `PacketDump.TrimLeftKeepsChars` | packages/pacman/internal/netutil/packet.go:112 | trimming the left keeps only characters of the text |
| `PacketDump.TrimRightKeepsChars` | packages/pacman/internal/netutil/packet.go:112 | trimming the right keeps only characters of the text |
| `JsonString.UnquoteQuote` | packages/pacman/pkg/httpproxy/pac.go:13-17 | a quoted string reads back as itself |
| `JsonString.EscapeIsHtmlSafe` | packages/pacman/pkg/httpproxy/pac.go:15 | the escaped text holds no control character, no `<`, `>`, `&` and no line or paragraph separator |
| `ZoneTrie.Zone.constructor` | packages/pacman/base/src/pkg/trie/zone.go:12-15 | a zero zone has no tables yet |
| `EnvDecoder.Record.constructor` | packages/pacman/pkg/env/env.go:27-38 | the target record holds the given kind, fields and values |
| `GroupedMenu.Menu.Groups` | packages/pacman/internal/app/menu.go:11-14 | one item group per group node |
| `GroupedMenu.InsertedGroup` | packages/pacman/internal/app/menu.go:30-48 | after an insert into group g, group g has the item appended and every other group is unchanged |
| `Throttle.Copies` | packages/pacman/pkg/throttle/counter.go:66-75 | n copies of the time, none for n below 1 |
| `NetAddr.SplitBracketed` | packages/pacman/base/src/pkg/dialer/rewriting.go:27 | `[host]:port` splits into host and port |
| `NetAddr.SplitPlain` | packages/pacman/base/src/pkg/dialer/rewriting.go:27 | `host:port` with a colon-free host splits into host and port |
| `NetAddr.ParseFormatIPv4` | packages/pacman/pkg/httpproxy/pac.go:38 | the dotted form of an address parses back to it |
| `NetAddr.FormatParseIPv4` | packages/pacman/pkg/httpproxy/pac.go:37-38 | a parsed dotted address prints back as the same text |
| `NetAddr.ParseNetworkString` | packages/pacman/pkg/httpproxy/pac.go:37-38 | the CIDR text of a network parses back to it |
| `NetAddr.ParsedNetworkContainsAddress` | packages/pacman/pkg/httpproxy/pac.go:37 | the network parsed from `a/n` contains the address a |

## Left out

- Concurrency: the locks of the tries, the counter, the pool and the session table, the `done` channel, and the goroutines that run the OpenConnect main loop are left out. Every operation is modelled as one sequential step.
- `SyncPool.Pool.Get`: the second lookup under the write lock is not a separate step. Without concurrency it always agrees with the first.
- `SyncPool.Pool.Get`: on a factory error the Go code also returns the zero value. The model returns only the error.
- The network, the DNS resolver, the gVisor stack's dials, the wrapped dialers and the context are parameters. They are functions of what they are asked, and the properties hold for every such function.
- `StackDialer.DialContext`: IP addresses are byte sequences. The gVisor `FullAddress` they become is not modelled.
- Error text: errors are a datatype with their context and quoted value. The formatted message of `fmt.Errorf`, `%q` quoting and `errors.Join`'s newline joining are not modelled.
- `Strconv.Atoi`: a `NumError` keeps only its kind. Its function name and input are dropped.
- IPv6 literals and IPv6 networks: addresses and CIDR rules are parsed as IPv4 only. Any other text is treated as a plain host name.
- Case mapping is ASCII only. Go's Unicode `ToLower`/`ToUpper` agree with it on the ASCII host names and URL schemes the rules use.
- Go's `string(bytes)` is read as one character per byte, as in Latin-1. UTF-8 decoding of payloads and C strings is not modelled.
- JavaScript string lengths count UTF-16 code units. The model counts JavaScript lengths in characters, which agree for host names in the Basic Multilingual Plane. Go's `len` is a UTF-8 byte count and is modelled as such (`Text.Utf8Len`).
- `HttpPac.SuffixTest`: the length written is Go's byte length of `.zone`. For a zone with a non-ASCII character, such as `*.bücher.de` (11 bytes, 10 characters), the script's suffix test never holds for a subdomain. The model keeps this as written; `HttpPac.WildcardTestMeansSuffix` covers ASCII zones and `HttpPac.NonAsciiZoneTestMisses` states what happens for the others.
- Floating point: float fields of the environment decoder are converted by a parameter. Float marshaling in the CSD encoder carries its own decimal text. `strconv.FormatFloat` and `ParseFloat` are not modelled.
- `EnvDecoder.Decoder.Unmarshal`: `encoding.TextUnmarshaler` fields are converted by the same parameter. A pointer field is converted to the kind it points to, and the pointers themselves are not modelled.
- `EnvDecoder.Decoder.Unmarshal`: Go allocates a nil pointer field before parsing (packages/pacman/pkg/env/env.go:96-100). When the parse then fails, Go leaves that field as a new pointer to the zero value. The model keeps the field's old value in that case.
- Reflection panics, such as a field that cannot be set or a value of the wrong kind, are excluded by `requires` clauses rather than modelled as panics.
- `CidrList.CIDR.Insert`: the list is a sequence value. The aliasing of the Go slice, whose pointers are shared between the copies `slices.Insert` makes, is not modelled.
- `CidrList.CIDR.Insert`: the loop reads the list as it was when the call began. Go's `range` reads the live backing array, and `slices.Insert` shifts that array in place while it has spare capacity. How many duplicate copies of the new entry Go leaves, and where they sit after the first one, therefore depends on the slice's capacity, which the model does not track. The model's count is the snapshot count. `CidrList.ExtraCopiesIgnored` shows that these copies do not change `Match`. They do show up in `RuleTrie.Trie.Walk` and in the `isInNet` lines `HttpPac.ServeHTTP` writes.
- `CidrList.InsertedContents`: its count of one copy per shorter mask holds for the snapshot reading only. See the line above.
- `RuleTrie.Trie.Insert` and `RuleTrie.Trie.Match`: the `Host[V]` type of the host table is not part of this model. It is taken to be an exact-key map, which is how `Walk` ranges over it (packages/pacman/base/src/pkg/trie/trie.go:45). So a host rule matches only its own spelling: no case folding, no trimming and no wildcard or IP handling inside the host table. `RuleTrie.ExactRuleFirst` and `RuleTrie.HostRuleMatches` hold under this assumption.
- `RuleTrie.Trie.Walk` and `HttpPac.ServeHTTP`: the order in which the trie yields its hosts is a parameter, the host sequence. The properties hold for every order.
- `SortedMap.SortedMapIter`: Go's version is generic over any `cmp.Ordered` key type. The model fixes string keys, the only key type its callers use (dialer names). Integer and floating-point keys are not modelled.
- Map iteration order: `SortedMap.Sort` fixes it, and the CSD map marshaler's output is proved the same up to reordering for any order. Go's `slices.Sort` algorithm itself is replaced by an insertion sort with the same result.
- `nil` and empty slices and maps are not distinguished.
- Menu items are values. The staleness of `*MenuItem` pointers handed out before a later insert, the `StateChanged` notifications and the calls into the `menuet` library are not modelled.
- The OpenConnect library is a parameter: its return codes and the session address it hands out. Its own behaviour is not modelled.
- `OcSession.New`: its contract assumes the library's convention that callbacks of a session created with a NULL private pointer receive the session's own address (`OcEngine.CallbackContext`). The binding only passes `privdata` through, so the handle table lookup in the callbacks finds the session only under this assumption.
- `AuthForms.AuthForm.SetValue`: a failed `openconnect_set_option_value` is not modelled. The credentials processor ignores that result anyway.
- The `VpnInfo` setters and getters that `New` does not call are left out: host name, tunnel script and descriptor, DTLS, cookie, command pipe, CSTP connection and main loop.
- `vsnprintf` and `malloc` are parameters: the formatted text, or its failure, and whether the allocation succeeds.
- `CBridge.Needed`: when `vsnprintf` measures `INT_MAX` characters, the `+ 1` is signed overflow, which is undefined behaviour in C. The model assumes a two's-complement wrap to `INT_MIN`, as common compilers produce without optimisation. `CBridge.LongestTextWraps` states the outcome under that assumption only.
- XML decoding is a parameter: `HostscanManifest.UnmarshalField` receives what decoding the element's attributes gave. `ReadManifest` is left out.
- The rule matcher that proxy scripts consult for a proxy's own host is a parameter. URL parsing of proxy URLs is replaced by their scheme, host and host name.
- Writers accept a whole write or nothing. Partial writes are not modelled. The HTTP response writer of the PAC handlers always accepts, and the `Content-Type` header is left out.
- `HttpPac.ServeHTTP`: with no wildcard or CIDR rule the script holds `if () {`, which is not valid JavaScript. The model keeps this as written.
- `PacketDump`: the gopacket layer decoding and the `slog` output are left out. The model covers the first-layer choice, `isHTTP`, `isTLSClientHello` and how an application payload is summarised.
- Logging through `slog` elsewhere is left out, except where the log records are what a processor produces.
