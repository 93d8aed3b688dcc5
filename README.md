# MadKit kernel: roles, overlookers, watchers and start-up options

This project is a Dafny model of four sequential parts of the MadKit
multi-agent kernel. Each part is modelled with its proofs.

- **Role** (`Role.java`). A role keeps the local agents that play it in an
  ordered `players` list. Its `agentAddresses` list is built lazily and
  then also holds the addresses of agents on distant kernels. A `modified`
  flag guards the cached copy of `players` that `getAgentsList` hands out.
  The role also keeps the set of overlookers attached to it. Joining,
  leaving, bulk joining, remote import and removal, and the purge of a
  disconnected kernel are methods of the `Kernel.Role` class. A role that
  becomes empty detaches its overlookers and asks its group to remove it.
- **Overlooker** (`Overlooker.java`). An overlooker is the live view of a
  probe or activator over one role. It is attached with
  `setOverlookedRole`, which seeds it with one `adding` call per current
  agent. It answers `getCurrentAgentsList`, `size` and `getShuffledList`.
  `update` dispatches each membership change to `adding` or `removing`.
  Each overlooker records the calls to its hooks. The role's invariant
  `Observed` says that replaying the calls an overlooker received since it
  was attached gives back exactly the role's current players.
- **Watcher** (`Watcher.java`). A watcher is an agent holding an ordered
  set of probes. A probe is kept only when the kernel accepts it. The
  watcher's requests to the kernel are recorded in order.
- **Start-up options** (`Madkit.java`). The model covers the `--option v1
  v2` command-line parser, the `launchAgents` value
  (`Class,withGUI,count;…`) and how `launchConfigAgents` reads it, and
  `checkAndValidateOption`, which normalises an option before storing it.

The following collaborators become parameters:

- Agent identities and kernel addresses are natural numbers.
- An `AgentAddress` is the pair (agent, kernel), so it compares by those two
  only.
- The kernel's list of operating overlookers and its answer to
  `addOverlooker` are parameters.
- `Group.removeRole` is a ghost counter, `groupRemovals`.
- `AgentAddress.setRoleObject` is a ghost set of the addresses bound to the
  role, `bound`.
- A `Platform` value stands for the outside world of the option parser.
  It gives the keys and values of the default properties, the file
  separator, what `Level.parse` answers, whether a class name loads, and
  what a configuration file holds.
- The random source of `Collections.shuffle` is a sequence of draws.

## Model

| member | source | states |
|---|---|---|
| `Collections.RemoveFirst` | src/madkit/kernel/Role.java:245 | `ArrayList.remove(Object)`. A list without x is unchanged. Otherwise exactly one copy of x is removed: the result is one shorter, has x once less in its multiset, and keeps every other element. |
| `Collections.RemoveFirstAt` | src/madkit/kernel/Role.java:245 | The removal deletes exactly the first position that holds x and keeps the order of the rest. |
| `Collections.RemoveFirstNoDup` | src/madkit/kernel/Role.java:245 | Removing from a duplicate-free list keeps it duplicate-free, and afterwards x is absent. A player who leaves does not play the role any more. |
| `Collections.NoDupAppend` | src/madkit/kernel/Role.java:201 | Appending new elements that are distinct from each other and from the list keeps the list duplicate-free. |
| `Collections.Shuffle` | src/madkit/kernel/Overlooker.java:90 | `Collections.shuffle`, for any sequence of random draws, returns a permutation of its input of the same length. |
| `AgentAddresses.LocalAddressesNoDup` | src/madkit/kernel/Role.java:231-240 | The address list built from duplicate-free players is duplicate-free and holds the local address of every player. |
| `AgentAddresses.WithoutKernel` | src/madkit/kernel/Role.java:268-277 | The addresses kept after purging kernel k are exactly the old ones whose kernel is not k. |
| `AgentAddresses.WithoutKernelAppend` | src/madkit/kernel/Role.java:273-276 | The purge filter distributes over concatenation, so the kept addresses stay in their original order. |
| `AgentAddresses.IndexOfAgent` | src/madkit/kernel/Role.java:318-331 | Finds the first address held by the agent. No earlier address belongs to it, and None means that no address does. |
| `AgentAddresses.RemoveAddressOf` | src/madkit/kernel/Role.java:318-331 | When the agent has no address, the list is unchanged. Otherwise exactly the agent's first address is removed, and the rest keep their order. |
| `AgentAddresses.ImportAll` | src/madkit/kernel/Role.java:428-437 | Remote import keeps a duplicate-free list duplicate-free. It keeps the old list as a prefix, and the result holds exactly the old and the imported addresses. |
| `LiveView.ReplayAddings` | src/madkit/kernel/Role.java:417-421 | One `adding` call per agent of a bucket, in the bucket's order, extends an overlooker's reconstruction by exactly that bucket. |
| `LiveView.SeededReplay` | src/madkit/kernel/Overlooker.java:66-70 | An overlooker seeded with a role's agents reconstructs exactly that agent list. |
| `Kernel.Targeting` | src/madkit/kernel/Role.java:85-88 | The operating overlookers chosen for a new role are exactly those whose community, group and role equal its own, without duplicates. |
| `Kernel.SelectTargeting` | src/madkit/kernel/Role.java:85-88 | The constructor's selection loop computes that choice. |
| `Kernel.MakeAddresses` | src/madkit/kernel/Role.java:233-238 | The loop creates one local address per agent, in the agents' order. |
| `Kernel.KeepOtherKernels` | src/madkit/kernel/Role.java:273-276 | The iterator walk that removes elements leaves exactly the addresses of the other kernels, in order. |
| `Kernel.RemoveAgentAddressOf` | src/madkit/kernel/Role.java:318-331 | Removes the first address held by the requester, keeping the rest in order, and returns that first address. It returns nothing exactly when no address belongs to the requester. |
| `Kernel.Overlooker.constructor` | src/madkit/kernel/Overlooker.java:39-44 | A new overlooker names its community, group and role, and is attached to no role. |
| `Kernel.Overlooker.SetOverlookedRole` | src/madkit/kernel/Overlooker.java:46-56 | Stores the role. For a role, it calls `adding` once per current agent in list order. For null, it makes no callback. |
| `Kernel.Overlooker.Initialize` | src/madkit/kernel/Overlooker.java:66-70 | Calls `adding` once for each agent of the current list, in order. It makes no callback when detached. |
| `Kernel.Overlooker.Adding` | src/madkit/kernel/Overlooker.java:76 | The `adding` hook records one call. |
| `Kernel.Overlooker.Removing` | src/madkit/kernel/Overlooker.java:82 | The `removing` hook records one call. |
| `Kernel.Overlooker.GetCurrentAgentsList` | src/madkit/kernel/Overlooker.java:102-110 | Detached, it returns the empty list. Attached, it returns the role's cached list, which is rebuilt only when the role was modified. On a consistent role that list equals the players. |
| `Kernel.Overlooker.Size` | src/madkit/kernel/Overlooker.java:120-122 | The number of players of the watched role, and 0 when detached. |
| `Kernel.Overlooker.GetShuffledList` | src/madkit/kernel/Overlooker.java:86-96 | Corrected behaviour: the result is a permutation of the players, and empty when detached. The role's cached list keeps its order. |
| `Kernel.Overlooker.GetShuffledListInPlace` | src/madkit/kernel/Overlooker.java:86-96 | As written: the result is the shuffled players, and the role's cached list is left in that shuffled order while still marked up to date. |
| `Kernel.Overlooker.Update` | src/madkit/kernel/Overlooker.java:142-147 | Exactly one hook call: `adding` when added, otherwise `removing`. |
| `Kernel.Role.constructor` | src/madkit/kernel/Role.java:72-90 | A new role has no players and no address list. It attaches and seeds exactly the matching operating overlookers, and leaves the other overlookers untouched. It starts dirty unless seeding refreshed its cache. |
| `Kernel.Role.InitializeOverlookers` | src/madkit/kernel/Role.java:92-96 | Attaches every overlooker of the role and seeds each one with the current players. |
| `Kernel.Role.AddOverlooker` | src/madkit/kernel/Role.java:146-150 | Adds the overlooker to the set once, attaches it and seeds it with the players. Membership is unchanged. |
| `Kernel.Role.RemoveOverlooker` | src/madkit/kernel/Role.java:152-155 | Only detaches the overlooker, which stays in the set, and makes no hook call. |
| `Kernel.Role.ObservedStep` | src/madkit/kernel/Role.java:408-412 | After a change to the players is fanned out, every attached overlooker's reconstruction matches the new players. |
| `Kernel.Role.AddMember` | src/madkit/kernel/Role.java:179-197 | Returns false and changes nothing for a current player. Otherwise the agent is appended to the players, and its address is appended only when the address list exists. The flag `modified` is set, and every overlooker gets one `adding` call. |
| `Kernel.Role.AddMembers` | src/madkit/kernel/Role.java:199-218 | The bucket is appended to the players. When the address list exists, the bucket's addresses go in front of it. A just-created role seeds its overlookers afresh. Otherwise each overlooker gets one `adding` per agent, in order. |
| `Kernel.Role.AddDistantMember` | src/madkit/kernel/Role.java:223-229 | Builds the address list if needed, then appends the distant address unless it is already present, and binds it to the role. Players are untouched and a duplicate-free list stays duplicate-free. |
| `Kernel.Role.BuildAgentAddressesList` | src/madkit/kernel/Role.java:231-240 | Acts only when the list is absent. It then creates the local address of each player in order, so a second call changes nothing. |
| `Kernel.Role.ImportDistantOrg` | src/madkit/kernel/Role.java:428-440 | Builds the list if needed, then appends each imported address not already present, in order, and binds it to the role. No duplicate is created, and the players and cache are untouched. |
| `Kernel.Role.AppendAbsent` | src/madkit/kernel/Role.java:431-436 | The import loop computes the import of the list. |
| `Kernel.Role.RemoveMember` | src/madkit/kernel/Role.java:243-262 | Returns ROLE_NOT_HANDLED with no change for a non-player. Otherwise the agent leaves the players, and only its first address leaves the list. The flag `modified` is set, every overlooker gets one `removing` call, and the role deletes itself exactly when it became empty. |
| `Kernel.Role.DropPlayer` | src/madkit/kernel/Role.java:244-256 | The bookkeeping of a leave: the player is removed, its first address is removed, and `modified` is set. |
| `Kernel.Role.DeleteIfEmpty` | src/madkit/kernel/Role.java:344-347 | A role with no players and an absent or empty address list asks its group to remove it once and detaches every overlooker. Any other role changes nothing. |
| `Kernel.Role.RemoveAgentsFromDistantKernel` | src/madkit/kernel/Role.java:268-281 | Drops every address of the kernel and keeps the others in order. It never touches the players and does nothing to an address list that was never built. The role deletes itself exactly when it is left empty. |
| `Kernel.Role.RemoveDistantMember` | src/madkit/kernel/Role.java:299-312 | Removes the first copy of the address from an existing list, so a duplicate-free list no longer holds it. The players are untouched, and the role deletes itself exactly when it is left empty. |
| `Kernel.Role.DropAddress` | src/madkit/kernel/Role.java:300-308 | The list update of a distant leave. |
| `Kernel.Role.DeleteMySelfFromOrg` | src/madkit/kernel/Role.java:288-293 | Sets the role of every overlooker to null, then makes exactly one `removeRole` call to the group. |
| `Kernel.Role.GetAgentsList` | src/madkit/kernel/Role.java:393-405 | Rebuilds the cached copy of the players and clears `modified` only when `modified` was set. Otherwise it returns the same cached list. |
| `Kernel.Role.UpdateOverlookers` | src/madkit/kernel/Role.java:408-412 | Each overlooker receives one `update` call for the agent, and its attachment is unchanged. |
| `Kernel.Role.UpdateOverlookersAdded` | src/madkit/kernel/Role.java:417-421 | Each overlooker receives one `adding` call per agent of the bucket, in order. |
| `ShuffleDemo.ShuffledCacheDemo` | src/madkit/kernel/Overlooker.java:86-110 | As written: after a shuffle, `getCurrentAgentsList` answers 2, 1 while the players joined as 1, 2. |
| `ShuffleDemo.ShuffledCopyDemo` | src/madkit/kernel/Overlooker.java:86-110 | Corrected: the same calls give a shuffled copy 2, 1, and `getCurrentAgentsList` still answers 1, 2. |
| `Watchers.WithProbe` | src/madkit/kernel/Watcher.java:41-47 | The probe is in the set afterwards exactly when it was before or the kernel accepted it. The old probes stay a prefix, and no second entry is created. |
| `Watchers.RemoveUndoesAdd` | src/madkit/kernel/Watcher.java:41-53 | Removing a probe that was just added gives back the probe set held before. |
| `Watchers.Watcher.constructor` | src/madkit/kernel/Watcher.java:39 | A watcher starts with no probes and no kernel requests. |
| `Watchers.Watcher.AddProbe` | src/madkit/kernel/Watcher.java:41-47 | Asks the kernel once and keeps the probe only when the kernel accepted it. |
| `Watchers.Watcher.RemoveProbe` | src/madkit/kernel/Watcher.java:49-53 | Always asks the kernel to remove the probe. Afterwards the probe is not held. |
| `Watchers.Watcher.RemoveAllProbes` | src/madkit/kernel/Watcher.java:67-72 | Asks the kernel to remove each held probe once, in insertion order, and leaves no probe. |
| `Watchers.Watcher.Terminate` | src/madkit/kernel/Watcher.java:58-62 | Removes all probes before handing over to the agent's own termination. |
| `JavaText.Trim` | src/madkit/kernel/Madkit.java:589 | `String.trim`: the result is a contiguous part of the string, and only characters up to the space lie outside it. The result neither starts nor ends with such a character. A string already in that form is returned unchanged. |
| `JavaText.ToLower` | src/madkit/kernel/Madkit.java:913 | Keeps the length. Each upper-case ASCII letter becomes its lower-case letter, and every other character is unchanged. |
| `JavaText.Split` | src/madkit/kernel/Madkit.java:586-588 | `String.split` on one character: no field holds the separator. A string without the separator is its own single field. Otherwise the result is the pieces less the empty ones at the end. |
| `JavaText.JoinPieces` | src/madkit/kernel/Madkit.java:588 | Cutting at every separator and joining again gives back the string. |
| `JavaText.PiecesJoin` | src/madkit/kernel/Madkit.java:588 | Joining separator-free fields and cutting again gives back the fields. |
| `JavaText.SplitJoin` | src/madkit/kernel/Madkit.java:588 | Splitting the join of two or more separator-free fields, the last not empty, gives back exactly those fields. |
| `JavaText.ParseInt` | src/madkit/kernel/Madkit.java:593 | `Integer.parseInt`: the text is accepted exactly when an optional sign is followed by at least one digit and nothing else, and the signed value fits in 32 bits. The result is that signed value. |
| `JavaText.ParseIntExamples` | src/madkit/kernel/Madkit.java:593 | "+7" and "007" read as 7, "-12" reads as -12, and "1a" is refused. |
| `JavaText.ParseIntToString` | src/madkit/kernel/Madkit.java:593 | `parseInt` reads back every 32-bit value that `Integer.toString` writes. |
| `Boot.ScanSegments` | src/madkit/kernel/Madkit.java:697-719 | The token loop fills the map exactly as the command line's segments (an option and its run of values) say. |
| `Boot.ParseArgumentsIntoMap` | src/madkit/kernel/Madkit.java:697-719 | Each `--opt` token writes "true" under `opt`. A run of value tokens then overwrites that option's value, or the null key's, with the run joined by spaces and trimmed. |
| `Boot.ApplyUnmentioned` | src/madkit/kernel/Madkit.java:697-719 | A key that no option on the command line names keeps its previous entry, or its absence. |
| `Boot.ApplyLastWins` | src/madkit/kernel/Madkit.java:703-711 | The last occurrence of an option decides its value. |
| `Boot.ApplyOverrides` | src/madkit/kernel/Madkit.java:512-514 | An option named on the command line gets the same value whatever the map held before. |
| `Boot.TestArgCommandLine` | test/madkit/boot/process/TestArg.java:25-31 | `--autoAgentLogFile bin true --agentLogLevel ALL` gives "bin true" and "ALL". |
| `Boot.RenderParse` | src/madkit/kernel/Madkit.java:586-594 | An entry written as `Class,withGUI,count` reads back as that entry, for every class name without a comma or surrounding spaces and every 32-bit count. |
| `Boot.RenderParseClassOnly` | src/madkit/kernel/Madkit.java:588-594 | An entry that names only its class reads as that class, with no GUI and one instance. |
| `Boot.RenderParseWithGUI` | src/madkit/kernel/Madkit.java:588-594 | An entry written as `Class,withGUI` reads as that class and GUI flag, with one instance. |
| `Boot.ReadAll` | src/madkit/kernel/Madkit.java:587-594 | Each entry of the list is read independently, in order. |
| `Boot.ReadEntries` | src/madkit/kernel/Madkit.java:587-594 | The loop reads every entry in order, each as `ParseLaunchEntry` does: the class name is the trimmed first field, the GUI flag the second field (false if absent), and the count the third field (1 if absent). |
| `Boot.FirstFailureAt` | src/madkit/kernel/Madkit.java:587-599 | The failure reported is that of the first failing entry, and the entries launched are exactly those before it. |
| `Boot.FailureSticks` | src/madkit/kernel/Madkit.java:587-599 | Once an entry has failed, later entries change neither the failure nor what was launched. |
| `Boot.NoFailureIffAllOk` | src/madkit/kernel/Madkit.java:587-599 | No entry fails exactly when every entry reads. |
| `Boot.EntryReadsIffLaunchable` | src/madkit/kernel/Madkit.java:937-947 | An entry reads exactly when it has a class field and passes the validator's test. |
| `Boot.ValidValueLaunchesCleanly` | src/madkit/kernel/Madkit.java:933-951 | The corrected validator accepts a `launchAgents` value exactly when every one of its entries can be launched. |
| `Boot.LaunchableValuePassesValidation` | src/madkit/kernel/Madkit.java:933-951 | Every value that can be launched passes the validator as written. |
| `Boot.CommaOnlyEntryPassesValidation` | src/madkit/kernel/Madkit.java:933-951 | As written: the validator accepts ",", whose one entry has no class field, so `launchConfigAgents` fails on it. |
| `Boot.Repeat` | src/madkit/kernel/Madkit.java:596-598 | n launches of the same entry, or none when n is not positive. |
| `Boot.KindOf` | src/madkit/kernel/Madkit.java:841-925 | Names the one branch of `checkAndValidateOption` that an option reaches. |
| `Boot.Outcome` | src/madkit/kernel/Madkit.java:831-927 | Covers each branch in turn. An unknown option is stored verbatim. A known option given its current value is left alone, as `isOptionWithDifferentValue` (Madkit.java:637-639) decides, except for `configFile`, `launchAgents` and `booterAgent`. `configFile` and `launchAgents` refuse "true", "null" and "". `launchAgents` also needs the corrected validator (see Findings), not the one as written. `logDirectory` is stored as given when it already ends with the separator, and otherwise with the separator appended. Boolean options are trimmed, lower-cased and accepted only as "true" or "false". |
| `Boot.CommaOnlyLaunchAgentsRefused` | src/madkit/kernel/Madkit.java:862-866 | Shows where the model departs from the source. The value "," passes the validator as written, yet the model's `launchAgents` check refuses it. |
| `Boot.OutcomeLocal` | src/madkit/kernel/Madkit.java:637-639 | Checking an option reads the configuration at that option only. |
| `Boot.LowerCaseReadsTheSame` | src/madkit/kernel/Madkit.java:913 | Lower-casing does not change what `parseBoolean` reads. |
| `Boot.CommandLineOverridesFile` | src/madkit/kernel/Madkit.java:508-514 | An option given on the command line keeps its command-line value, whatever the configuration file says. |
| `Boot.Madkit.constructor` | src/madkit/kernel/Madkit.java:327 | The configuration starts with no entries of its own, behind the defaults. |
| `Boot.Madkit.ModifyMadkitOption` | src/madkit/kernel/Madkit.java:653-656 | Sets the option and changes nothing else. |
| `Boot.Madkit.CheckAndValidateOption` | src/madkit/kernel/Madkit.java:831-927 | Returns false with no change when the option or the value is null. Otherwise it returns whether the option was stored, and stores exactly what `Outcome` says. Like `Outcome`, it checks `launchAgents` with the corrected validator. |
| `Boot.Madkit.ParseArguments` | src/madkit/kernel/Madkit.java:501-522 | With null arguments the configuration is unchanged. Otherwise every key holds its checked command-line value (over a loaded configuration file's options) or keeps its old entry. `launchAgents` is checked with the corrected validator. |
| `Boot.Madkit.CheckAll` | src/madkit/kernel/Madkit.java:517-519 | Checking the entries one by one, in any order, stores each option's accepted value and leaves every other key alone. `launchAgents` is checked with the corrected validator. |
| `Boot.Madkit.LaunchConfigAgents` | src/madkit/kernel/Madkit.java:582-601 | Launches the agents of each entry, count by count and in order, up to the first entry that cannot be read, and reports that entry's error. "null" launches nothing. |
| `Boot.Madkit.LaunchEach` | src/madkit/kernel/Madkit.java:587-599 | The entry loop launches exactly the entries read before the first failure, and reports that failure. |
| `Boot.Madkit.LaunchInstances` | src/madkit/kernel/Madkit.java:596-598 | One `launchAgent(className, 1, withGUI)` call per instance. |

## Left out

- `KernelConnection.java`, `AgentThreadFactory.java` and `NetworkMessage.java` are not part of this model. They contain socket I/O, Java serialisation, thread creation and tag constants.
- Concurrency is not modelled. The `synchronized (players)` blocks and the synchronized methods are modelled as sequential steps.
- Logging, `Level.parse`, class loading, file handlers and XML configuration files are outside the model. They are represented by fields of the `Platform` parameter, or omitted where they only log. `setDefaultAgentLogLevel` and the file handlers made by the log-file branches are not modelled.
- The lookups `getAgentAddressOf`, `getAgentAddressInGroup`, `containsAddress`, `isPlayingRole` and `getAbstractAgentWithAddress` are not modelled. They depend on `hashCode`, on `AbstractAgent.getKernel` and on the `Group` class, none of which is part of this model.
- `Group`, `Community` and `MadkitKernel` are not part of this model. The return codes NOT_COMMUNITY, NOT_GROUP, ACCESS_DENIED, NULL_STRING and AGENT_CRASH come from those classes.
- The constructor `Role(community, group)` only names a group and is not modelled.
- Agent identities are taken as unique across kernels, so `removeAgentAddressOf` matches on the agent alone.
- Kernel.Overlooker.SetOverlookedRole: the `adding` and `removing` hooks are the default empty ones, which never throw. The `catch` that keeps the role attached when `initialize` throws therefore never fires in the model.
- Kernel.RemoveAgentAddressOf: null entries in the address list, which the source skips by catching `NullPointerException`, do not occur in the model.
- Kernel.Role.AddMembers: requires the bucket to hold distinct agents that do not already play the role. The kernel's bulk request, which is not part of this model, builds such buckets. Without this condition the players list could hold duplicates.
- Collections.Shuffle: the random source is a sequence of draws. Only the permutation property and the swap pattern of `Collections.shuffle` are stated, not its distribution.
- Boot.Outcome: the `launchAgents` branch calls the corrected validator `LaunchAgentsValueValid`, not `launchAgentsOptionValidate` as written (Madkit.java:864). The model therefore refuses a value such as ",", which the source stores and `launchConfigAgents` then fails on. `CommaOnlyLaunchAgentsRefused` shows this difference.
- Boot.Madkit.CheckAndValidateOption, Boot.Madkit.ParseArguments, Boot.Madkit.CheckAll: these inherit the corrected `launchAgents` check from `Boot.Outcome`.
- Boot.Outcome: in the `booterAgent` branch, `Platform.loadable` stands for a class loader that the source has not built yet. `parseArguments` runs (Madkit.java:332, 390) before `buildMadkitClassLoader` (Madkit.java:334) sets `madkitClassLoader`. So in the source any value other than "true" throws an uncaught NullPointerException at Madkit.java:880. The model instead stores the value when it loads.
- JavaText.ToLower: lower-cases ASCII letters only, not the locale-dependent Unicode rules of `String.toLowerCase`.
- JavaText.ParseInt: accepts ASCII digits only, while `Integer.parseInt` also accepts other Unicode decimal digits.

## Findings

| source | as written | input that shows it | evidently intended | confidence | as-written member | corrected member |
|---|---|---|---|---|---|---|
| src/madkit/kernel/Overlooker.java:86-96 | `getShuffledList` shuffles the list `getCurrentAgentsList` returns. That list is the role's own cached list, so the cache is left shuffled while still marked up to date. | A role whose players joined as 1 then 2, shuffled with one draw of 0: the next `getCurrentAgentsList` answers 2, 1. | A shuffled copy, with the current list kept "in proper sequence" as the javadoc of `getCurrentAgentsList` says. | medium, not executed | `Kernel.Overlooker.GetShuffledListInPlace` (shown by `ShuffleDemo.ShuffledCacheDemo`) | `Kernel.Overlooker.GetShuffledList` (shown by `ShuffleDemo.ShuffledCopyDemo`) |
| src/madkit/kernel/Madkit.java:933-951 | `launchAgentsOptionValidate` only checks the third field. An entry made of commas splits into no field at all, yet passes, and `launchConfigAgents` then indexes field 0 of an empty array. | The `launchAgents` value ",". | The validator accepts a value exactly when `launchConfigAgents` can read every entry. | medium, not executed | `Boot.LaunchAgentsOptionValidate` (shown by `Boot.CommaOnlyEntryPassesValidation`) | `Boot.LaunchAgentsValueValid` (proved by `Boot.ValidValueLaunchesCleanly`; used by `Boot.Outcome`) |
