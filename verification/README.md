# Verification model of vps-panel

vps-panel is a control panel with an agent on each server. This project models, in Dafny, the parts of
it where a crash, a retry, an interleaving or a number decides whether the data stay right, and states
what they keep. `dafny verify dfyconfig.toml` checks the whole project.

## What is modelled

- **Restore** (`RestoreVolume`, `RestoreLog`, `RestoreDisk`, `RestoreProtocol`). An uploaded backup is staged, applied at
  the next start, and committed or rolled back. The volume is a value, the disk a class whose primitives
  succeed, fail or are cut short by a crash. A crash freezes the disk: nothing the code does afterwards
  has an effect, so a postcondition on the volume speaks of every crash point inside the method. `Logical`
  is the data set the panel owns at this instant. What may happen to it from start to start is said apart
  from any disk, by an event log and its states (`RestoreLog`), and the disk's steps keep to that.
- **IPv4 ranges** (`Cidr`, `ChinaPrefixes`, `ChinaRegistry`). The greedy decomposition of a range into CIDR
  blocks (prefix notation as in section 3.1 of RFC 4632), and the lists built from registry lines that
  must be accepted again when the cache is read.
- **Firewall** (`Firewall`, `Listing`, `Ufw`, `IpTables`, `HostFirewall`, `FirewallText`). Reconciling the
  rules an owner manages with a desired set, each command working or not as a plan says, and the parsers of
  what the firewall commands print.
- **Configs** (`Text`, `RealmRender`, `RealmText`, `RealmParse`, `XrayRender`). Rendering the Realm and Xray
  configs and reading back from a previous config what it listens on. The round trip is what makes a
  rollback restore the right firewall.
- **Managed runtimes** (`Health`, `ManagedRuntime`, `RealmApply`, `XrayApply`). Enable with its rollback,
  disable and purge of Xray and Realm on one host, over the firewall the host has. A plan says which steps
  work, fail, or are where the process stops.
- **Panel and Agent** (`AgentLoop`, `ConfigVersions`, `Connections`, `ConnectionLocks`, `Probe`). Coalesced
  syncs, versioned results over a network that loses, repeats and reorders, diagnostics requests across
  connection replacement, lock order, and probe workers.
- **Accounts** (`LoginLimiter`, `LoginBurst`, `AccountTokens`). The fixed-window limiter and the e-mail,
  reset and password transactions.
- **Two total-correctness cores**. The size-limited diagnostic encoder (`Utf8`, `Diagnostic`) and the
  copy-name search (`CopyName`).

Outside inputs are parameters or arbitrary choices: command results, clocks, random tokens, the answers of
a network, the order in which a map is walked. Where the source mutates something, the model does too; a
loop of the source is a loop of the model.

## Findings

Each of these is a statement of the project, with its exact condition.

- `StageImport` does not look for a leftover `rollback` directory, and `Commit` only logs when it cannot
  remove one. Publishing a marker next to a leftover copy makes that copy the owned set, unless it equals
  the live files (`PublishMarkerKeepsLogical`, `LeftoverRollbackResurrects`).
- A look at `restore/` that fails with anything but "not found" is reported like a rejected restore, and the
  start goes on to open the data directory. With a restore under way that directory may be half replaced:
  neither the owned nor the staged set (`BlindRun`, and for any such directory `BlindOpeningFinds`). It is
  opened so if and only if one of the start's three looks fails (`OpenDatabase`), so over whole runs never
  while looks are answered, whatever else fails (`Lifetimes`); and the owned set survives it, without what
  the panel writes then (`Serve`).
- A first install cut short after the download began and before the marker was written leaves a host that
  `checkConflicts` refuses from then on, whatever is asked (`EnsureManaged`, `Lives`, `CutShortInDownload`).
- ufw lists IPv6 entries behind the IPv4 ones, and the numbers to delete are taken before the additions. A
  run in which something is missing and something stale is an IPv6 entry deletes the wrong entries; any
  other ends with exactly the desired rules (`Ufw.Reconcile`, `MovingAPortHitsTheWrongEntry`).
- `iptables -D` removes one copy of a rule and the parser folds copies together, so a stale rule that was
  there twice survives a reconciliation that reports success (`EndsAs`, `SecondCopyStays`).
- The parser counts a rule with further match conditions, which no `-D` matches: every reconciliation that
  does not want it fails, for as long as it is there (`NarrowedRuleIsStuck`, `Retries`). A run succeeds if
  and only if its commands work and every stale rule is there in its own words (`IpTables.Reconcile`).
- A chain that cannot be listed passes for an inactive firewall, with success (`IpTables.ReconcileRules`).
- The Realm host check strips brackets before it looks for an address, and the renderer puts the unstripped
  host into brackets again, so a target of `[::1]` is accepted and rendered to `[[::1]]:port`, which splits
  into no host and port (`BracketedTarget`; a target reads back if and only if it has no bracket,
  `RemoteReadsBack`).
- Realm's health loop does not reset its counter on an inactive service, Xray's does
  (`RealmAcceptsFlapping`).
- The config is in place before the service is restarted. When the process stops in between, or the
  permission step fails, the next apply of the same config looks at the service, finds it up and reports
  success without a restart, with the old config running (`NeverRestarted`). After a success the service
  runs the config in place if and only if that config was new, or the service was not found up, or it ran
  this config already (`Served`, `ApplyRelays`).
- With no previous config, a rolled back Xray apply leaves the firewall as the failed apply left it; Realm
  clears it (`Rollback`). The entries are what they were if and only if restart or health failed, or the
  rules were refused, or the first command of the run that would change something failed (`Settled`,
  `FirstRuleStays`; on ufw for the runs that are right).
- The diagnosis of an unreadable desired state uses the code `config.desired_state`, which is not among the
  allowed codes, so that result cannot be encoded (`UnreadableStateIsInvalid`).
- The copy-name search stays within 100 code points for fewer than 10^94 − 1 existing names, one fewer than
  10^94, because the number of the last round is one more than the number of names.

## Model

| member | source | states |
|---|---|---|
| RestoreProtocol.Lifetimes | panel/cmd/panel/main.go:195-226 | over any number of starts, each with any failures and a crash at any step, with serving and further imports in any order in between, the log of openings, trials, commits and work is an allowed history that ends in the set the volume holds: the owned set is carried from start to start, and only the live set's own opening, the panel's work and an accepted restore change it. Whatever crashed or failed, no opening is blind as long as every look at `restore/` that did not crash was answered. When nothing fails and every start runs, every request of every life is made |
| RestoreProtocol.OpenDatabase | panel/cmd/panel/main.go:195-226 | one start keeps that history. With a restore under way it opens the data directory unseen if and only if one of the three looks for it fails, and then does nothing else; in every other start no opening is blind. Without a fault the start is determined (an acceptable staged set is committed, a rejected one rolled back and the owned set opened); with one fault, nothing interrupted before and an acceptable staged set it still gets to open the owned set |
| RestoreProtocol.TryRestore | panel/cmd/panel/main.go:207-225 | open, validate, commit, and whatever goes wrong in that, back: every outcome with the set that is owned then |
| RestoreProtocol.OpenTrial | panel/cmd/panel/main.go:203-211 | opening and validating the staged set never touches the owned one, and without a fault it passes if and only if the staged set is acceptable |
| RestoreProtocol.Reject | panel/cmd/panel/main.go:221-225 | when nothing fails after the rejection the old set is back and opened as if there had been no restore |
| RestoreProtocol.OpenExisting | panel/cmd/panel/main.go:203-206 | what is opened without an attempt is the owned set; a restore under way is opened only when a look has failed since the boot |
| RestoreProtocol.ApplyPendingRestore | panel/internal/backup/restore.go:29-129 | the owned set is the same before and after at every crash point; an attempt comes back only with exactly the staged set installed and the old one saved; a restore under way is missed, and reported like any other failure, if and only if one of its three looks fails; without a fault the marker is resolved and there is an attempt if and only if the staged database is valid and nothing is saved yet; one fault never makes the recovery fail when nothing had to be recovered |
| RestoreProtocol.BeginRestore | panel/internal/backup/restore.go:64-128 | the part from the readable marker on: one failing step is answered by giving the old set back |
| RestoreProtocol.SaveRollback | panel/internal/backup/restore.go:84-111 | the old set is published in `rollback/` without changing what the panel owns; it fails if and only if a step does, and then leaves no published copy. Failing later than in its first step, by one fault and no crash, it has withdrawn the restore and its workspace |
| RestoreProtocol.SaveOld | panel/internal/backup/restore.go:92-106 | rollback.tmp ends as exactly the named files that exist |
| RestoreProtocol.Install | panel/internal/backup/restore.go:112-128 | from the published copy to the installed staged files, no step changes the owned set, and without a fault the result is exactly `Installed` |
| RestoreProtocol.InstallKey | panel/internal/backup/restore.go:120-127 | the mail key is replaced as a whole and only under the published copy |
| RestoreProtocol.DoRollback | panel/internal/backup/restore.go:146-175 | from any half-replaced state, and re-run after any interruption, it gives back the saved set and drops the marker and the copy if and only if no step of it fails |
| RestoreProtocol.RemoveReplaced | panel/internal/backup/restore.go:151-160 | the removal loop touches nothing that the saved copy does not cover |
| RestoreProtocol.CopyBack | panel/internal/backup/restore.go:161-170 | the copy loop ends with the data directory equal to the owned set |
| RestoreProtocol.RollbackOnError | panel/internal/backup/restore.go:177-182 | the kind of error says whether the old set is back, and it is whenever no further step fails |
| RestoreProtocol.DiscardPending | panel/internal/backup/restore.go:184-191 | the marker goes first; whatever remains was promised to nobody |
| RestoreProtocol.CleanUnpublished | panel/internal/backup/restore.go:32-38 | without a marker everything left over is cleared and the data directory is untouched |
| RestoreProtocol.Commit | panel/internal/backup/restore.go:133-144 | removing the marker is the whole commit: the owned set becomes the installed one as it was opened, only after an accepted trial, and failing to remove the copy does not undo it |
| RestoreProtocol.Serve | panel/cmd/panel/main.go:151-177 | the panel's own writes go to the owned set, or after a blind opening nowhere that lasts |
| RestoreProtocol.StageImport | panel/internal/backup/backup.go:398-441 | every failure leaves the owned set as it was; success publishes a complete staging and a marker whose database digest is that of the upload, with a key digest if and only if a key came with it and then the key's, and keeps the owned set if and only if no leftover `rollback` disagrees with the live files; one failing step that is no crash leaves everything as it was |
| RestoreProtocol.ImportAndStart | panel/cmd/panel/main.go:195-226 | an upload and the restart after it, with any failures and crashes, in terms of the uploaded database and key alone: when the panel runs on the restored set, its SQLite files are the uploaded database as opened, its key is the uploaded one or, without one, the key there was, and every other file is what it was; when it runs on anything else with every look answered, that is the old set; without a fault a good upload is what it runs on |
| RestoreProtocol.StageFiles | panel/internal/backup/backup.go:409-417 | files are staged before anything is promised |
| RestoreProtocol.PublishPending | panel/internal/backup/backup.go:418-439 | pending.json appears complete or not at all |
| RestoreProtocol.BlindRun | panel/cmd/panel/main.go:195-206 | a run that does it: an upload, a restart cut off between removing the old database and moving in the new one, a start whose first look fails; the panel then opens neither the owned set nor the staged one |
| RestoreProtocol.BlindOpeningFinds | panel/internal/backup/restore.go:112-127 | for any restore under way, when what would be opened unseen is the owned set, and when it is the staged one |
| RestoreProtocol.OneLife | panel/cmd/panel/main.go:195-226 | one boot of that run, with a list of requests; when nothing fails in it, an acceptable staged restore is committed, and a panel that runs has been asked for each of the requests |
| RestoreLog.OwnedStays | panel/cmd/panel/main.go:203-225 | trying restores any number of times without a commit leaves the owned set as it was |
| RestoreLog.NeverMixed | panel/cmd/panel/main.go:203-225 | in an allowed history every opening is of the owned set, or of exactly the staged set with every look since the boot answered, or a look had failed since that boot |
| RestoreLog.CommitNeedsTrial | panel/cmd/panel/main.go:207-216 | a commit follows an opening of exactly the staged set and a passed validation in the same boot, and what is owned then is what that opening left |
| RestoreVolume.ShieldedKeepsLogical | panel/internal/backup/restore.go:112-127 | while marker and copy are both there, nothing done to the replaced files is visible |
| RestoreVolume.PublishRollbackKeepsLogical | panel/internal/backup/restore.go:107-111 | publishing the copy is invisible if and only if it agrees with the live files |
| RestoreVolume.PublishMarkerKeepsLogical | panel/internal/backup/backup.go:434-439 | publishing the marker is invisible if and only if no leftover copy disagrees |
| RestoreVolume.RemoveMarkerCommits | panel/internal/backup/restore.go:134-136 | the one step that changes the owned set changes it to exactly the staged one as it was opened |
| RestoreVolume.InstalledIgnoresTouched | panel/internal/backup/restore.go:112-127 | installing over a half-replaced set gives the same result |
| RestoreVolume.LeftoverRollbackResurrects | panel/internal/backup/backup.go:402-408 | a leftover `rollback` that the import does not look at would replace the live database: the concrete case |
| ChinaPrefixes.Ipv4RangePrefixes | panel/cmd/agent/china_firewall.go:429-455 | the loop computes the greedy decomposition, without uint64 or uint32 overflow, and nothing for an empty or overlong range |
| ChinaPrefixes.ExactCover | panel/cmd/agent/china_firewall.go:429-455 | the blocks are masked, ascending, disjoint and together exactly the range, 0/0 included |
| ChinaPrefixes.ExactlyTheMaximalBlocks | panel/cmd/agent/china_firewall.go:437-453 | a block is in the result if and only if it is a maximal aligned block of the range |
| ChinaPrefixes.NoShorterCover | panel/cmd/agent/china_firewall.go:429-455 | no set of CIDR blocks with that union is smaller |
| ChinaPrefixes.AtMost62 | panel/cmd/agent/china_firewall.go:429-455 | at most 62 blocks for every range |
| ChinaPrefixes.SixtyTwoIsReached | panel/cmd/agent/china_firewall.go:429-455 | 0.0.0.1 to 255.255.255.254 takes 62 |
| Cidr.AlignmentBitsSpec | panel/cmd/agent/china_firewall.go:438-441 | trailing zeros, with 32 for address zero, are the largest block an address can start |
| Cidr.Log2Spec | panel/cmd/agent/china_firewall.go:442 | Len64 - 1 is the largest block that fits |
| Cidr.Nested | panel/cmd/agent/china_firewall.go:429-455 | two aligned blocks that share an address are nested |
| ChinaRegistry.ParseRegistry | panel/cmd/agent/china_firewall.go:384-427 | in terms of the fields of the lines: an address is in the IPv4 list if and only if some relevant line delegates a range within the space that holds it, and the list holds exactly the largest blocks of each such range; the IPv6 list holds exactly the delegated networks without host bits; both strictly ascending; an error if and only if one family has none; every result passes the cache validation |
| ChinaRegistry.ValidateCache | panel/cmd/agent/china_firewall.go:364-382 | accepted if and only if both lists are non-empty, every text in them is a masked network of its family, no text repeats, and the fetch time is set |
| ChinaRegistry.ValidateGroup | panel/cmd/agent/china_firewall.go:368-380 | the same for one family, by the loop with its `seen` map |
| ChinaRegistry.CacheRoundTrip | panel/cmd/agent/china_firewall.go:347-427 | whatever list of a family's networks a download gives, its texts are acceptable when read back, for every text form that reads back the prefixes netip can hold; `ParseRegistry` ends in this |
| Sorting.Sorted | panel/cmd/agent/china_firewall.go:457-471 | each element once, none before its predecessor |
| HostFirewall.ReconcileRules | panel/cmd/agent/firewall.go:60-83 | one call on a host with ufw, with iptables, or with no firewall: when it succeeds, that the managed rules are then the wanted ones if and only if the firewall was right for them, and which they are otherwise, that an unreadable or inactive chain passes for success with nothing changed, when it changes nothing at all, and that after a failure the firewall is right for the rules there were; where any call ends is a function of the state before it, `AfterCall`. The other owner's entries are what they were, on ufw for a right run with no entry counting for both |
| HostFirewall.Purge | panel/cmd/agent/firewall.go:85-122 | the same for no rules at all, which an inactive chain is not spared |
| Ufw.ReconcileRules | panel/cmd/agent/firewall.go:60-67 | on a ufw host: refused rules touch nothing; it succeeds if and only if all its commands work, and then leaves the wanted rules if and only if the run was steady; and whichever command fails in a steady run, the other of proxy and realm keeps all its entries in order |
| IpTables.ReconcileRules | panel/cmd/agent/firewall.go:74-83 | on an iptables host, in any chain whatever: a chain that cannot be listed, or has no rule and a policy that accepts, is left alone with success after that one look; with one rule or a refusing policy the run is carried out, success leaves the wanted rules and the doubled stale ones, and a failing run loses no rule wanted before and now, invents none and leaves the other owner's entries in order |
| Listing.OtherOwnerKept | panel/cmd/agent/firewall.go:316-324 | keeping what is foreign to one owner keeps the other's entries, as long as none counts for both |
| Ufw.Reconcile | panel/cmd/agent/firewall.go:234-258 | it succeeds if and only if all its commands work; then the managed rules are the desired ones if and only if nothing was missing or nothing stale is listed behind the additions, and in that case exactly the stale entries are gone and exactly the missing ones added; such a run is safe after every command and changes nothing exactly when there is nothing to do or one of its first two commands fails. Whichever commands work, what any run leaves is given outright, by `Played`, from the listing and the schedule |
| Ufw.Carry | panel/cmd/agent/firewall.go:240-257 | the same from the listing on |
| Ufw.DeleteNumbers | panel/cmd/agent/firewall.go:252-256 | deleting the numbers of the old listing, highest first: in a steady run each finds its entry although the numbers shift, in any other the highest stale entry survives |
| Ufw.StaleNumbers | panel/cmd/agent/firewall.go:245-251 | the stale numbers, each once, highest first |
| Ufw.AllowAll | panel/cmd/agent/firewall.go:240-244 | additions go to the end of their block and never disturb what is listed, at every prefix |
| Ufw.ParseManaged | panel/cmd/agent/firewall.go:366-397 | the managed set and the number of every managed entry, repeats included |
| Ufw.DeletingThrough | panel/cmd/agent/firewall.go:252-257 | when every number has been deleted the managed rules are the desired ones if and only if the run was steady |
| Ufw.ReachedIsSafe | panel/cmd/agent/firewall.go:240-256 | between any two commands of a steady run foreign entries are untouched and no rule wanted before and now is missing |
| Ufw.MovingAPortHitsTheWrongEntry | panel/cmd/agent/firewall.go:240-256 | with IPv6, moving one port deletes a foreign IPv6 entry and leaves the stale one: the concrete listing, every command working |
| Ufw.BackIsSteady | panel/cmd/agent/firewall.go:240-256 | going back to the rules there were is steady on a host without IPv6, whatever a failed run left |
| Ufw.UfwReadsBack | panel/cmd/agent/firewall.go:241 | what the Agent writes it recognises |
| Ufw.KeyMeans | panel/cmd/agent/firewall.go:366-397 | the same for ufw, where the comment may stand behind another one |
| Ufw.OwnersDoNotMeet | panel/cmd/agent/firewall.go:316-324 | a rule written for proxy or realm is foreign to the other; acme shares the proxy comments |
| IpTables.Reconcile | panel/cmd/agent/firewall.go:281-296 | it succeeds if and only if every command works and every stale rule is there in its own words; every copy of every rule is accounted for, on success and after any failing command; foreign entries stay in order; nothing changes exactly when there is nothing to do or the first command changes nothing. Lines 260-279 (firewalld) run the same two loops. What any run leaves is given outright, by `Played` |
| IpTables.EndsAs | panel/cmd/agent/firewall.go:289-294 | success leaves the desired rules and the stale ones that were there more than once, so exactly the desired ones if and only if there was none |
| IpTables.SecondCopyStays | panel/cmd/agent/firewall.go:289-294 | two copies of a stale rule: the run succeeds and one stays |
| IpTables.NarrowedRuleIsStuck | panel/cmd/agent/firewall.go:338-355 | a rule narrowed by hand under the Agent's comment is counted by the parser and matched by no deletion |
| IpTables.StuckStays | panel/cmd/agent/firewall.go:289-294 | such a rule outlives every run |
| IpTables.Retries | panel/cmd/agent/firewall.go:289-294 | so with every command working, every later run that does not want it fails |
| IpTables.BackAgain | panel/cmd/agent/firewall.go:281-296 | going back to the rules there were finds nothing undeletable and nothing doubled, whatever a run left |
| IpTables.LeavesIsSafe | panel/cmd/agent/firewall.go:281-296 | whatever fails, foreign entries are untouched, no rule wanted before and now is missing and none is invented |
| IpTables.InsertAll | panel/cmd/agent/firewall.go:283-288 | each missing rule gains one copy, in order, none of the others changes |
| IpTables.DeleteAll | panel/cmd/agent/firewall.go:289-294 | each stale rule loses one copy; the loop ends early exactly at a failing command or a rule that is not there in its own words |
| IpTables.PurgeRules | panel/cmd/agent/firewall.go:114-120 | the same run for no rules, without the look whether the chain is active |
| IpTables.IptReadsBack | panel/cmd/agent/firewall.go:330-355 | what the Agent writes, and whatever it recognises, can be written again |
| IpTables.KeyMeans | panel/cmd/agent/firewall.go:316-355 | which listed entries are the owner's rules, and what the agent writes for a rule, in the words of the comments |
| Firewall.Normalize | panel/cmd/agent/firewall.go:298-307 | the set of the rules, or a refusal if and only if one is out of range |
| Listing.ManagedKept | panel/cmd/agent/firewall.go:409-429 | keeping what is not stale keeps exactly the managed rules that are desired |
| FirewallText.ParseManagedFirewallRules | panel/cmd/agent/firewall.go:338-355 | the parsed set is the managed set of the listed entries |
| FirewallText.KeyIsParser | panel/cmd/agent/firewall.go:341-352 | the key the reconciliation proof uses is what the parser makes of a line |
| FirewallText.PrintedRuleReadsBack | panel/cmd/agent/firewall.go:330-355 | a written rule is read back from the listing, whatever iptables or firewalld prints around it |
| FirewallText.OneOwner | panel/cmd/agent/firewall.go:345 | no line at all is managed for both proxy and realm |
| FirewallText.UfwLineReadsBack | panel/cmd/agent/firewall.go:370-395 | a numbered ufw line is read back with its number and rule for exactly the owners its comment mentions |
| FirewallText.FieldSkips | panel/cmd/agent/firewall.go:445-452 | fields without the key in front of it do not matter |
| RealmRender.ParseRendered | panel/cmd/agent/realm_render.go:86-137 | parsing a rendered config gives back the listeners and rules of the relays in id order, as known |
| RealmRender.RestoredRules | panel/cmd/agent/realm.go:345-407 | so the firewall a rollback restores from the old text is the one the old relays were installed with |
| RealmRender.RenderRealmConfig | panel/cmd/agent/realm_render.go:20-46 | the text of the relays by id; refused if and only if one of them is not acceptable |
| RealmRender.ParseRenderedRealmState | panel/cmd/agent/realm_render.go:86-137 | the two loops compute the line-by-line parse and the completeness check |
| RealmRender.SortByIdSorts | panel/cmd/agent/realm_render.go:21-22 | the same relays, ascending by id |
| RealmRender.RuleSetByMembers | panel/cmd/agent/realm.go:725-736 | the expected rules do not depend on the order of the relays |
| RealmRender.EndpointParses | panel/cmd/agent/realm_render.go:38-43 | one rendered endpoint adds exactly its listener to the parser's list |
| RealmRender.AllParse | panel/cmd/agent/realm_render.go:93-120 | and so for any list of relays |
| RealmParse.KnownMeans | panel/cmd/agent/realm_render.go:86-137 | of any text at all: it is known if and only if it is not empty, every listen line of an endpoint names an address literal and a port in range, and every endpoint has such a line and a protocol on; its listeners are then its endpoints in order, the last line of each kind counting, and its rules their ports by protocol |
| RealmText.RulesByNetwork | panel/cmd/agent/realm.go:725-736 | the rules of accepted relays are tcp on the ports of those with TCP and udp on the ports of those with UDP |
| RealmText.SwitchesMean | panel/cmd/agent/realm_render.go:48-59 | the two switches of a tcp, a udp and a combined relay |
| RealmText.RemoteReadsBack | panel/cmd/agent/realm_render.go:32-43 | the remote line names the relay's target host and port to whoever splits it, if and only if no bracket is in the host |
| RealmText.ListenReadsBack | panel/cmd/agent/realm_render.go:32-41 | an endpoint listens at the relay's own address and port, and in a validation on a port of the loopback that the system picks |
| RealmText.BracketedTarget | panel/cmd/agent/realm_render.go:61-84 | "[::1]" passes the host check, and no rendered line names it |
| RealmText.ExampleText | panel/cmd/agent/realm_render.go:20-46 | one relay's config, line by line |
| Text.LinesUnlines | panel/cmd/agent/realm_render.go:90 | splitting joined lines gives the lines back |
| Text.UnquoteQuote | panel/cmd/agent/realm_render.go:40-41 | unquoting a quoted text gives it back, on one line |
| Text.SplitJoin | panel/cmd/agent/realm_render.go:105 | splitting a joined host and port gives them back for every host without brackets |
| Text.AtoiItoa | panel/cmd/agent/realm_render.go:106 | reading a written number gives it back |
| XrayRender.Render | panel/cmd/agent/xray_render.go:110-162 | in terms of ports and protocols: one inbound for every proxy but a Shadowsocks one without clients, in order, under the domain strategy of each preference; refused if and only if the preference is unknown, a proxy is not acceptable, or two included ones share a port |
| XrayRender.ConfigState | panel/cmd/agent/xray.go:785-800 | listeners and rules of a decoded config, in order |
| XrayRender.ExpectedRules | panel/cmd/agent/xray.go:762-774 | tcp on the port of every included proxy, and udp exactly for Shadowsocks; exactly the rules of the config the proxies render to |
| XrayRender.ExpectedListeners | panel/cmd/agent/xray.go:738-753 | exactly one for each port of the included proxies, by port; for proxies that render, the config's listeners up to order |
| XrayRender.RenderThenRead | panel/cmd/agent/xray.go:331 | the parser finds in a rendered config the rules by port and protocol and the addresses a health check dials; both views are those of the included inbounds: the known state exactly, the expected one up to the order of listeners |
| ManagedRuntime.Enable | panel/cmd/agent/xray.go:244-351 | the steps that failed decide how an apply ends: none, and it took effect; restart, health or firewall first and then nothing but a health check, and config, rules and running service are what they were; an early one, and it is refused with nothing changed; the permission step of the replacement is the one gap. Only a validated config is ever put in place, and after a success the service is enabled, has passed the health check with it and runs it, unless it was already in place and the service was found up with another. The marker covers everything at every crash point, a stranded host is refused and left as it is, and a first install cut short in its download strands the host. Realm: realm.go lines 274-364. The entries of the other of proxy and realm are what they were, on ufw when the runs are right and no entry counts for both. An apply brought to its end, forwards or by a clean rollback, made exactly its steps in their order (`StepByStep`), from the download to the removal of the temporary files |
| ManagedRuntime.Apply | panel/cmd/agent/xray.go:244-351 | the apply of a rendered config, with the same outcomes |
| ManagedRuntime.Install | panel/cmd/agent/xray.go:288-351 | the part from the unit to the firewall, with every outcome's config and firewall |
| ManagedRuntime.Switch | panel/cmd/agent/xray.go:331-351 | the replacement of the config and what follows it |
| ManagedRuntime.Launch | panel/cmd/agent/xray.go:341-350 | restart, health, firewall, in this order, and what the firewall is after each failure |
| ManagedRuntime.Reapply | panel/cmd/agent/xray.go:305-329 | a config already in place is only made to run, `Applied` if and only if no step failed; a service found up is not restarted |
| ManagedRuntime.NeverRestarted | panel/cmd/agent/xray.go:305-345 | an apply of a new config whose process stops between replacing it and the restart, and the next apply of the same config, which finds the service up: it succeeds without a restart, and the service goes on with the old config |
| ManagedRuntime.Wake | panel/cmd/agent/xray.go:305-327 | permissions, look, start and health of a config already in place |
| ManagedRuntime.Rollback | panel/cmd/agent/xray.go:365-408 | it is clean if and only if no step but the health check fails, and then the previous config is back, the service runs it, and its rules, when it is recognised, have been run for; without a previous config Xray leaves the firewall alone and Realm clears it. A clean one made exactly its steps in their order |
| ManagedRuntime.SettledByRollback | panel/cmd/agent/xray.go:341-408 | after a clean rollback the rules are the old ones: always when the firewall was not reached; when it was, if and only if it is right for them where the failed run leaves it, which is worked out from the state before and the schedule of the commands, and which on any host but ufw with IPv6 holds |
| ManagedRuntime.LateFailureIsUndone | panel/cmd/agent/xray.go:341-408 | so one late failure gives back the old rules |
| ManagedRuntime.FirstRuleStays | panel/cmd/agent/xray.go:369-380 | Xray with no config to go back to: after a clean rollback a rule of the failed run is still there |
| ManagedRuntime.OnlyTheFirewall | panel/cmd/agent/xray.go:244-351 | failures on record are real: where every step works and every look is healthy only the firewall can fail or the config be refused |
| ManagedRuntime.EnsureManaged | panel/cmd/agent/xray.go:410-463 | gets through if and only if the host is not stranded and no step fails; the marker is written before the binary; a process that stops in the first download leaves a stranded host. Getting through takes exactly the steps of a check or of a new copy, in their order |
| ManagedRuntime.CheckConflicts | panel/cmd/agent/xray.go:465-505 | passes if and only if the marker is there or nothing at all is |
| ManagedRuntime.CutShortInDownload | panel/cmd/agent/xray.go:436-466 | a first install cut short in its download, and then any requests whatever, each of them made: none is ever applied |
| ManagedRuntime.Disable | panel/cmd/agent/xray.go:211-242 | without the marker nothing is touched; it succeeds if and only if no step fails, and then there is no config, no previous config, and no rule if and only if the firewall was right for that; otherwise which rules are left. The other owner's entries stay under the same condition. A success made exactly its steps in their order |
| ManagedRuntime.RemoveConfigDir | panel/cmd/agent/xray.go:946-974 | cut short, it has removed entries in the order of their names and added none |
| ManagedRuntime.Purge | panel/cmd/agent/xray.go:142-192 | the marker goes last: interrupted anywhere it can be run again; success leaves nothing of the runtime, and no rule if and only if the firewall was right for that; otherwise which rules are left. The other owner's entries stay under the same condition. A success made exactly its steps in their order |
| ManagedRuntime.Lives | panel/cmd/agent/xray.go:123-140 | over any requests, each of them made, with crashes anywhere, nothing of the runtime is there without the marker, and a stranded host keeps its state and refuses every config. On any host but one with ufw all those requests together leave the other owner's entries as they were |
| ManagedRuntime.Host.Reconcile | panel/cmd/agent/firewall.go:60-83 | one run of the host's own back end, reported as failed when it fails or the process stops in it |
| ManagedRuntime.Host.Wait | panel/cmd/agent/xray.go:681-712 | healthy if and only if the looks of this step confirm it |
| RealmApply.ApplyRelays | panel/cmd/agent/realm.go:274-364 | render, install and roll back put together: the outcome by the steps that failed, with the very text and, unless the chain could not be listed, the relays' rules if and only if the firewall was right for them. The run is made for the owner "realm", and the proxy's entries are what they were |
| RealmApply.ApplyThenRollBack | panel/cmd/agent/realm.go:341-407 | after one apply that works, a second one in which restart, health or firewall fails and nothing but a health check after that is rolled back cleanly, to the first one's text and rules |
| RealmApply.Known | panel/cmd/agent/realm.go:345 | what the runtime reads in a rendered text are the rules of the relays |
| XrayApply.ApplyProxies | panel/cmd/agent/xray.go:244-351 | the same as for Realm: the run is made for the owner "proxy", and the realm's entries are what they were |
| XrayApply.ApplyThenRollBack | panel/cmd/agent/xray.go:331-408 | the same as for Realm |
| XrayApply.Known | panel/cmd/agent/xray.go:785-800 | that an encoded config of machine numbers is decoded as it was is enough for the parser to find the rules of the proxies in a rendered text |
| XrayApply.ReadState | panel/cmd/agent/xray.go:785-800 | the state of a text is that of the config it decodes to, and unknown for no text |
| Health.WaitUntilHealthy | panel/cmd/agent/realm.go:674-702 | healthy if and only if a confirmed pair of healthy looks is reached; each error exactly when the source returns it, for both runtimes |
| Health.XrayImpliesRealm | panel/cmd/agent/xray.go:681-712 | Xray's test is the stricter one |
| Health.RealmAcceptsFlapping | panel/cmd/agent/realm.go:681-691 | and strictly so: a service found inactive in between passes Realm's test only |
| AgentLoop.NoLostWakeUp | panel/cmd/agent/main.go:500-647 | in every state of every run, whatever the interleaving: when the loop is idle, a sync has started after the last message and at no older version than any announced; until then something is left that will bring it about |
| AgentLoop.Loop.Run | panel/cmd/agent/main.go:500-647 | for every list of moves what the code does in this order is such a run, each move exactly as `Moved` says |
| AgentLoop.Loop.StartConfigSync | panel/cmd/agent/main.go:474-484 | starts a sync, or leaves the request to the end of the one that runs; never two at a time |
| AgentLoop.Loop.ReadConfigChanged | panel/cmd/agent/main.go:691-699 | the non-blocking send leaves a token, old or new |
| AgentLoop.Loop.TakeToken | panel/cmd/agent/main.go:526-527 | a consumed token starts a sync or is owed |
| AgentLoop.Loop.SyncReturns | panel/cmd/agent/main.go:480-483 | the completion channel is empty, so its send cannot block |
| AgentLoop.Loop.TakeFinished | panel/cmd/agent/main.go:528-533 | a pending request starts the next sync at once |
| AgentLoop.Loop.Settle | panel/cmd/agent/main.go:526-533 | what is owed is delivered by handling what is in the channels and the end of one sync |
| ConfigVersions.AppliedIsTrue | panel/internal/agentcontrol/result.go:13-74 | in every state of every run, with reports lost, repeated and reordered and the Agent starting again at any time, the applied version is one the Agent finished applying and no newer than the desired one; an Agent with nothing to do means a Panel that knows the desired version to be applied; from any state to any later one the version never falls |
| ConfigVersions.World.Run | panel/internal/agentcontrol/result.go:13-74 | for every list of events (new versions, syncs, deliveries, failures, restarts) what the code does in this order is such a run, each event exactly as `Happens` says |
| ConfigVersions.OneGoodSyncCatchesUp | panel/cmd/agent/config_sync.go:180-238 | however Panel and Agent got apart, one sync at the desired version in which everything works leaves it applied on both sides |
| ConfigVersions.PanelRow.RecordConfigResult | panel/internal/agentcontrol/result.go:13-74 | who is refused, and what each accepted report changes |
| ConfigVersions.PanelRow.RecordDesiredStateFailure | panel/internal/agentcontrol/result.go:76-106 | the status only |
| ConfigVersions.Synchronizer.Sync | panel/cmd/agent/config_sync.go:180-238 | every outcome: with a report, it succeeds if and only if the version was applied, the report accepted and, for a decommission, the helper activated; exactly then that version becomes the last successful one; the last state is replaced if and only if a version was applied that is no decommission; without a report it succeeds if and only if nothing is new. The helper is activated only after every purge and an accepted success report, and never stays prepared |
| ConfigVersions.Synchronizer.RefreshChinaPrefixes | panel/cmd/agent/config_sync.go:249-256 | refreshes for the last applied state, if and only if that blocks China |
| ConfigVersions.Synchronizer.ApplyDecommission | panel/cmd/agent/config_sync.go:136-157 | succeeds if and only if nothing is enabled or left in the state, both runtimes are to be purged, and every purge succeeds |
| Connections.Service.Run | panel/internal/agentcontrol/diagnostics.go:51-99 | any interleaving of the operations is a run of their step relation, each operation doing all of `After` |
| Connections.NeverTwiceNeverLeft | panel/internal/agentcontrol/diagnostics.go:51-99 | in every state of every run no response channel is sent to twice and a connection that is gone has no pending request |
| Connections.Service.Track | panel/internal/agentcontrol/connection.go:36-45 | a replaced connection has no request left |
| Connections.Service.Untrack | panel/internal/agentcontrol/connection.go:47-56 | only the current connection can go offline; `DisconnectCurrent` (lines 72-84) removes it in the same way |
| Connections.Service.CloseBegin | panel/internal/agentcontrol/connection.go:153-157 | from the unlock on nothing can be registered with it |
| Connections.Service.CloseEnd | panel/internal/agentcontrol/connection.go:158-161 | and afterwards nothing is pending |
| Connections.Service.Register | panel/internal/agentcontrol/diagnostics.go:52-72 | registered if and only if the server has a capable connection with no request; never with one that is gone |
| Connections.Service.Remove | panel/internal/agentcontrol/diagnostics.go:155-159 | removes at most the one request |
| Connections.Service.Resolve | panel/internal/agentcontrol/diagnostics.go:161-173 | the first answer takes the channel, a repeated one finds nothing |
| Connections.Service.Send | panel/internal/agentcontrol/diagnostics.go:171 | a taken channel has never been sent to, so capacity one is enough |
| Connections.Service.FailPending | panel/internal/agentcontrol/diagnostics.go:175-183 | every waiting channel is taken, exactly once |
| Connections.ReplacePlaced | panel/internal/agentcontrol/connection.go:36-45 | replacement keeps: one server a connection, requests only with current or closing connections |
| ConnectionLocks.OperationsAreOrdered | panel/internal/agentcontrol/connection.go:36-174 | every operation takes writeMu, connectionsMu, diagnosticsMu in this order |
| ConnectionLocks.StepIsSound | panel/internal/agentcontrol/diagnostics.go:51-99 | and keeps doing so step by step |
| ConnectionLocks.NoDeadlock | panel/internal/agentcontrol/diagnostics.go:51-183 | so in every sound state with work left somebody can move |
| Probe.Manager.Apply | panel/cmd/agent/probe.go:190-231 | after a newer accepted list the workers are exactly its tasks; a worker survives, as the same object, if and only if its task is unchanged; a rejected or stale list changes nothing; of what stopped workers still send, exactly the results already on their way are kept |
| Probe.Manager.Index | panel/cmd/agent/probe.go:191-210 | accepted if and only if every task is valid and no id repeats |
| Probe.Manager.StopOthers | panel/cmd/agent/probe.go:215-221 | stopped workers have been cancelled and waited for, the others are untouched |
| Probe.Manager.StartMissing | panel/cmd/agent/probe.go:222-229 | a new worker exactly where none was |
| Probe.Manager.Current | panel/cmd/agent/probe.go:258-260 | what passes was measured by a running worker for the definition now in force |
| Probe.Manager.Close | panel/cmd/agent/probe.go:262-270 | every worker is cancelled and waited for |
| LoginLimiter.Limiter.Run | panel/internal/api/login_limiter.go:54-136 | any calls are a run of the step relation, with the verdict the state before each gives |
| LoginLimiter.AlwaysBounded | panel/internal/api/login_limiter.go:54-136 | in every state of every run: at most 2·pairLimit − 1 admissions of a pair, and 39 of an address, in any half-open minute; the maps never outgrow 4096 and 1024 |
| LoginBurst.Burst | panel/internal/api/login_limiter.go:54-62 | a limiter after 2·pairLimit − 1 calls of `Take`, all admitted within one minute: the bound is reached |
| LoginLimiter.WindowBound | panel/internal/api/login_limiter.go:123-136 | any 2·limit admissions in a row span more than a minute |
| LoginLimiter.WaitIsEnough | panel/internal/api/login_limiter.go:64-84 | a refusal names a wait of at most a minute, and waiting exactly that long is enough |
| LoginLimiter.AdmitsExactly | panel/internal/api/login_limiter.go:64-84 | admitted if and only if pair and address are below their limits, each counted for one minute from its first attempt, and the maps have room for what is new |
| LoginLimiter.ShorterWaitIsRefused | panel/internal/api/login_limiter.go:64-84 | and any shorter wait is refused, for a blocked pair and for a blocked address |
| LoginLimiter.BlockPasses | panel/internal/api/login_limiter.go:71-82 | the same for one map, a full one included |
| LoginLimiter.Limiter.Take | panel/internal/api/login_limiter.go:54-62 | admits exactly when nothing blocks, and counts exactly what it admits |
| LoginLimiter.Limiter.Allow | panel/internal/api/login_limiter.go:64-84 | the wait is the larger of what the two maps ask for |
| LoginLimiter.Limiter.Record | panel/internal/api/login_limiter.go:92-102 | after an admission both entries have room |
| LoginLimiter.Limiter.Reset | panel/internal/api/login_limiter.go:104-108 | forgets the pair and not the address |
| LoginLimiter.Limiter.PruneExpired | panel/internal/api/login_limiter.go:110-121 | keeps exactly what is still inside its minute |
| LoginLimiter.TrackedRecorded | panel/internal/api/login_limiter.go:123-129 | how an entry relates to the admissions behind it |
| AccountTokens.Accounts.Run | panel/internal/auth/email.go:47-208 | any operations in any order, with any times and arguments, are a run of the step relation |
| AccountTokens.TokensAreSafe | panel/internal/auth/email.go:47-208 | in every state of every run: one open token a class and user, none redeemed twice, reset tokens only for the current verified address, addresses unique ignoring case, issues of a class at least a minute apart; and a used token is never open again |
| AccountTokens.OneUserOnly | panel/internal/auth/email.go:47-208 | every operation leaves all rows of every user but one as they were |
| AccountTokens.IssuedExactly | panel/internal/auth/email.go:86-114 | which tokens an issue closes: the user's open ones of that class |
| AccountTokens.LockedDownExactly | panel/internal/auth/password.go:150-180 | the same for a changed and an approved password |
| AccountTokens.ResetExactly | panel/internal/auth/password_email.go:116-148 | which sessions, tokens and requests a reset ends: all of this user's and nobody else's |
| AccountTokens.VerifiedExactly | panel/internal/auth/email.go:163-200 | which tokens a verification closes: the user's for addresses, and for resets when the address is another |
| AccountTokens.Accounts.PrepareEmailVerification | panel/internal/auth/email.go:47-124 | issued if and only if none of the refusals applies; the class is closed first |
| AccountTokens.Accounts.Cancel | panel/internal/auth/email.go:126-134 | the token is used up and its time stays, so the interval still counts |
| AccountTokens.Accounts.CancelPasswordReset | panel/internal/auth/password_email.go:83-91 | the same for reset tokens only |
| AccountTokens.Accounts.VerifyEmailToken | panel/internal/auth/email.go:136-208 | redeems if and only if the token is open, unexpired and its address free; binds exactly that address and closes what must be closed |
| AccountTokens.Accounts.PreparePasswordResetEmail | panel/internal/auth/password_email.go:28-81 | issued if and only if the address is verified and the interval has passed |
| AccountTokens.Accounts.ResetPasswordByEmail | panel/internal/auth/password_email.go:93-148 | redeems if and only if the token is open, unexpired and for the current verified address; leaves no session, no open reset token and no pending request |
| AccountTokens.Accounts.CreatePasswordResetRequest | panel/internal/auth/password.go:46-83 | at most one pending request a user |
| AccountTokens.Accounts.ReviewPasswordChangeRequest | panel/internal/auth/password.go:125-190 | approval sets the proposed password and leaves no session and no open reset token; rejection changes only the request |
| AccountTokens.Accounts.ChangePassword | panel/internal/auth/user.go:221-267 | when it succeeds, and that it leaves no session and no open reset token |
| AccountTokens.IssueKeeps | panel/internal/auth/email.go:86-114 | issuing after closing the class keeps every token invariant |
| AccountTokens.VerifyConsumedKeeps | panel/internal/auth/email.go:182-200 | what a verification does to the tokens keeps them, and redeems for the first time |
| AccountTokens.ResetConsumedKeeps | panel/internal/auth/password_email.go:126-137 | the same for a reset |
| AccountTokens.NewAddressKeeps | panel/internal/auth/email.go:163-181 | binding a free address keeps addresses unique and leaves no reset token on an old one |
| Diagnostic.EncodeResult | panel/internal/diagnostic/model.go:87-114 | terminates; what is sent is valid and within 60 KiB; it is the whole sanitised result when that fits and otherwise the longest shortened one that does; an error exactly when the whole result is invalid or nothing fits; every field it sends is the same field of the input without white space at its ends, whole or its longest beginning that fits the limit, and nothing where that is not valid text |
| Diagnostic.CutToSize | panel/internal/diagnostic/model.go:98-113 | the same for its closing loop |
| Diagnostic.SafeText | panel/internal/diagnostic/model.go:116-130 | the cut loop ends where the last code point that fits ends |
| Diagnostic.CutIsBoundary | panel/internal/diagnostic/model.go:126-128 | walking back to a starting octet never splits a code point and gives up no more than it must |
| Diagnostic.FittingIsLongest | panel/internal/diagnostic/model.go:123-129 | the kept part is the longest that fits |
| Diagnostic.SafeIsValid | panel/internal/diagnostic/model.go:150-154 | sanitised text always passes the check the panel makes |
| Diagnostic.SafeFixes | panel/internal/diagnostic/model.go:116-154 | text comes back unchanged if and only if it is valid and has no white space at its ends |
| Diagnostic.OnlyFieldsMatter | panel/internal/diagnostic/model.go:132-148 | a sanitised check is never refused for its texts |
| Diagnostic.TruncatedIsValid | panel/internal/diagnostic/model.go:156-158 | the note itself is a valid check |
| Diagnostic.ShortenedStaysValid | panel/internal/diagnostic/model.go:112 | shortening a valid result keeps it valid |
| Diagnostic.UnknownCodeIsFatal | panel/internal/diagnostic/model.go:132-137 | one unknown code among the first checks and there is no result |
| Diagnostic.UnreadableStateIsInvalid | panel/cmd/agent/config_sync.go:160-174 | the result for an unreadable desired state uses such a code, so the whole of it is invalid whatever its header and texts |
| Utf8.EncodeDecode | panel/internal/diagnostic/model.go:116-122 | decoding what was encoded gives it back (sections 3 and 4 of RFC 3629) |
| Utf8.ValidIffEncoded | panel/internal/diagnostic/model.go:151 | a string is valid UTF-8 if and only if decoding it loses nothing |
| CopyName.RoutingPresetCopyName | web/src/subscriptionRouting.ts:34-44 | the loop without a bound stops within one round more than there are names, with the first unused copy: the visible part of the name, as much of it as goes in 100 code points with the mark, and the mark of the round; within 100 code points while there are fewer than 10^94 − 1 names |
| CopyName.CandidatesDiffer | web/src/subscriptionRouting.ts:38-41 | different rounds try different names, however much is cut or trimmed |
| CopyName.RoundsBound | web/src/subscriptionRouting.ts:37-43 | so as many failed rounds need as many names |
| CopyName.CandidateLength | web/src/subscriptionRouting.ts:38-41 | a candidate is within 100 code points if and only if its number is below 10^94 |
| CopyName.CandidateKeeps | web/src/subscriptionRouting.ts:39-41 | a candidate is a beginning of the name and the suffix, the whole name when it fits |
| CopyName.TrimIs | web/src/subscriptionRouting.ts:36 | trimming keeps the part between the first and the last visible character |
| CopyName.CandidateIs | web/src/subscriptionRouting.ts:38-41 | the mark of the first round has no number, a later one has its round in decimal digits without a leading zero; the copy is as much of the name as goes with it, without blanks before it |

## Left out

- Restore: fsync and torn writes inside a rename; digests are ideal (equal digest, equal content); ZIP
  entries, manifest and SHA256SUMS are checked before the modelled part of `StageImport` begins, and its own
  looks for staged files are reliable; what SQLite makes of its files is a function of their contents when
  nothing fails.
- RestoreProtocol.Lifetimes: stages a further import only while no `rollback` directory is left over, the
  hypothesis `LeftoverRollbackResurrects` shows to be needed.
- RestoreProtocol.OpenDatabase: the database handle and its closing are not modelled.
- ChinaRegistry.ParseRegistry: a line comes split at its bars, and address and number parsing are parameters;
  netip's text form of a prefix in its range is taken as faithful; the size limit on the cache file is not
  modelled.
- Ufw.ReconcileRules: the other owner's entries are kept as long as no listed comment mentions both owners, since
  the ufw parser looks for the comment anywhere in the line.
- Ufw.OwnersDoNotMeet: proxy against realm only, since acme uses the proxy comments.
- FirewallText.UfwLineReadsBack: lines that hold a port and protocol; scanning of lines into fields by white
  space is a parameter for the iptables listing.
- HostFirewall.ReconcileRules: a host has one back end; that a failed status probe makes the source try the
  next one, and the nftables back end with its ownership comment, are not modelled; firewalld's loops are
  those of `IpTables.Reconcile`.
- HostFirewall.Purge: clears the one back end there is; the source clears every one present and joins the errors.
- ManagedRuntime.Host.Reconcile: runs the one back end, as `HostFirewall.ReconcileRules` does.
- RealmRender.RenderRealmConfig: `net.ParseIP` and the host check are parameters (`RealmText.ValidRealmHost` is
  the check, for ASCII hosts); `sort.Slice` is modelled as
  keeping the order of equal ids; `strconv.Quote` escapes quotes, backslashes and newlines only.
- XrayRender.Render: per-protocol validation is a parameter, and a config is its outbound strategy and
  inbounds; the fields inside an inbound are not modelled.
- XrayApply.Known: of JSON it is taken that decoding gives back what was encoded, for configs of machine
  numbers with a strategy the renderer writes.
- ManagedRuntime.Install: a permission failure after the config rename is the outcome `InstallFailed`, which
  the source also leaves without a rollback.
- ManagedRuntime.CheckConflicts: the check for foreign units, which only adds refusals, is not modelled.
- ManagedRuntime.Enable: unit text, service managers, downloads, archives and checksums are steps that work
  or fail; a service runs what it was last started with and does not die by itself; ACME certificates and the
  list of their domains are not modelled.
- AgentLoop: the other channels of the event loop (upgrades, certificate renewal, metrics) are independent of
  the modelled ones.
- ConfigVersions.World.Run: operation receipts and time stamps are not modelled; desired versions are assumed
  not to fall.
- Connections.Service.Track: a connection object is tracked once, as the handlers do; the socket itself is not
  modelled.
- Probe.Manager.Close: results a stopping worker still sends are not modelled; nobody reads them after a close.
- Probe.Manager.Measure: the bounded results channel is a sequence; a worker waiting for room is one that has
  not measured yet.
- LoginLimiter.Limiter.Run: the bounds are for `Take`; the login path calls `Allow` and later `RecordFailure`,
  between which other attempts may pass.
- AccountTokens.Accounts.Run: user deletion, roles, invitations and mail delivery are not modelled; tokens are
  distinct secrets, bcrypt an equality test, mailbox normalisation and SQLite's lower() parameters.
- Diagnostic.EncodeResult: the JSON length is a parameter, so that any concrete encoding is covered; that the
  source edits the caller's slice in place is not modelled.
- CopyName.RoutingPresetCopyName: numbers are unbounded, where the source counts in doubles (exact below
  2^53); lone surrogates are not modelled.
- HTTP handlers, the web front end except the copy name, Telegram, audit, traffic counters and metrics: no
  deep invariant.
