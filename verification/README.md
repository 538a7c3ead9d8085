# A verified model of UBO

UBO (Unlock Before Operation) prepares a host so that its encrypted disk can be unlocked from
afar: it reads a configuration file, generates keys, finds out how the host is connected, and
writes a boot script that brings up the same connectivity and a WireGuard tunnel early at boot;
later it connects through that tunnel and starts `cryptroot-unlock`. This project models the
parts of UBO in which texts and states have to agree across packages, and proves that they do.

* **Configuration.** `Toml` is the reader and printer of `ubo.toml` as methods that update a
  record in place, each proved against a function. `TomlLanguage` says by the characters of a text
  which files are accepted and what they mean. `TomlRoundTrip` and `TomlOverlay` prove that
  printing and parsing are inverse, that parsing is a last-write-wins overlay, and what comments
  and blank lines do. `SaveFile` proves the replacement of the file atomic under every behaviour
  of the operating system, `Editor` what the dialogue of `ubo configure` can and cannot make of a
  configuration, `Prompts` which typed line answers which prompt, and `Configure` puts loading, editing, validation and saving together.
* **Keys.** `Clamp`, `Base64`, `KeyFiles`, `WgIni` and `KeyPipeline` follow a key from its random
  bytes through clamping, encoding, files that survive failing runs, the client's INI file and
  back to the hexadecimal text that configures the device. `WgLanguage` says by the characters
  which client files are read as what, `TornClient` what is read from a client file that was cut
  off while it was written.
* **Network.** `NetDetect` fills the description of the host's network from command outputs,
  `Topology` lowers it to what exists early at boot, `BootScript` gives the emitted shell program
  a meaning over a small kernel (links, addresses, routes, `set -e`), `BootSafety` proves what
  holds under arbitrary command outcomes, and `Reconnect` proves exactly when, in a world of NICs
  only, the program rebuilds the connectivity of the original device; `Premises` shows for every
  supported device that the assumptions of that theorem can be met. `NicDrivers` proves that the image
  gets the modules this needs. `Ipv4` and `Tunnel` hold the address arithmetic.
* **Remote access.** `Sudo` reads the quoted commands back by the rules of a POSIX shell,
  `Unlock` checks every run of the unlock protocol against a monitor, `WaitTunnel` bounds the
  polling, and `Grub` covers the rewriting of the kernel command line.

`Text`, `Decimal`, `Bits` and `ConfigModel` are shared. Code that updates state in the source is a
class or a method here; pure code is functions and lemmas. What the operating system, the
network, the user and the cryptographic libraries do is a parameter of each operation, and every
theorem holds for all its values.

Some promises of the source hold only under a condition. In these cases the code is modelled as
it is and the theorem gives the exact condition:

| promise | exact condition | theorem |
|---|---|---|
| a saved configuration loads back | no string field holds a line break | `TomlOverlay.LoadsBackExactly` |
| `Save` is atomic | the target exists, or is not named like a temporary file of `Save` | `SaveFile.SaveAtomic` |
| the client file reads back | no line reaches the 64 KiB of the scanner | `WgIni.ReadRendered` |
| keys that load match, with torn writes possible | the SSH key and its public key cannot both be torn | `KeyFiles.FreshRunsLoadMatching` |
| the interface of `ip=` is a NIC | the device is a NIC, a bond or bridge whose first member is one, or a VLAN on a NIC or such a bond | `Topology.GrubInterfaceIsNic` |
| a cut-off client file is read as what was to be written | the cut is behind the value of its last field; within that value another configuration is read, in front of it none | `TornClient.CutOff` |
| the boot script brings the device back | the NIC is there (for a VLAN under its name; otherwise the first Ethernet interface will do), a VLAN's module is in the image and its name has at most 15 characters, is free and is not `wg0`, and the gateway fits as in the next row | `Reconnect.RebuildsConnectivity` |
| the boot script sets the default route | the gateway is another host and a neighbour on IFACE: in the static block or in another block or host route on that device, and no broadcast address; with the static block alone, a host of that block | `Reconnect.GatewayFitsBlock` |
| a second GRUB update changes nothing | there was a value, or no key is left without a closing quote, or the text behind the open key has an `ip=` word | `Grub.SecondUpdate` |
| password and content of `sudo -S` are told apart | the password is on one line | `Sudo.StdinSplits` |

Where code and documentation disagree, the model follows the code: README.md:255 says that keys
are regenerated on each run, but complete key files are reused (internal/keygen/keygen.go:27-30);
internal/config/toml.go:21 asks for white space in front of a trailing `#`, but none is needed;
internal/setup/setup.go:680-682 says that nothing counts as changed when the GRUB line is absent,
but the line is then appended and the result is a change; internal/templates/templates.go:216-219
says that the correct default route is installed, but for a gateway outside the static network the
script asks for a bare on-link route (line 222), which Linux refuses, and goes on without a default
route.

## Model

| member | source | states |
|---|---|---|
| Toml.ParseQuoted | internal/config/toml.go:166-202 | the scanning loop returns the decoded text and the unread rest, or the error of the first bad escape or missing quote |
| Toml.DecodeQuote | internal/config/toml.go:341-344 | whatever text is quoted and whatever follows, reading gives back exactly the text and what follows |
| Toml.DecodedIsQuoted | internal/config/toml.go:166-202 | every literal that is accepted is letter for letter the quoted form of its text followed by the rest |
| Toml.Assign | internal/config/toml.go:287-297 | one field is stored, the one its section and key name, or nothing is changed and the error says why |
| Toml.ParseLine | internal/config/toml.go:45-62 | one line moves section and record as the pure step says; a rejected line changes neither |
| Toml.ParseToml | internal/config/toml.go:31-40 | the loop over the lines refines the pure run that `TomlLanguage.FileLanguage` characterises, including the line number of the first error and the fields assigned before it |
| Toml.SchemaPlaces | internal/config/toml.go:254-285 | each of the fourteen fields is found under its own section and key and under no other |
| Toml.Marshal | internal/config/toml.go:308-338 | the printer's builder holds exactly the lines of the seven sections in order |
| TomlRoundTrip.KeyLineReads | internal/config/toml.go:78-162 | a printed line of any scalar reads back as that key and value |
| TomlRoundTrip.FieldLineStores | internal/config/toml.go:287-344 | in its section, the printed line of a field stores that field and no other |
| TomlRoundTrip.ParsePrinted | internal/config/toml.go:31-344 | from any starting record, parsing a printed newline-free configuration is accepted and leaves exactly it in all fourteen fields |
| TomlOverlay.AcceptedIffAllFit | internal/config/toml.go:31-62 | a file is accepted exactly when every line fits the section it stands in; `TomlLanguage` tells by the characters which lines fit |
| TomlOverlay.LastWriteWins | internal/config/toml.go:29-62 | a file is accepted exactly when every line fits, and then each field is what the last line that assigns it in its section says, or what it was before when no line does |
| TomlOverlay.MeaninglessLinesIgnored | internal/config/toml.go:45-48 | deleting blank and comment lines changes neither the result nor, on rejection, the error and the fields assigned |
| TomlOverlay.TrailingComment | internal/config/toml.go:206-215 | a comment behind an accepted line that is no header leaves its meaning, with or without a blank before '#' |
| TomlOverlay.HeaderComment | internal/config/toml.go:65-74 | behind a section header a comment is never accepted |
| TomlOverlay.TrailingCommentIgnored | internal/config/toml.go:31-62 | the same for a line anywhere in a whole file |
| TomlOverlay.ParsePrintable | internal/config/toml.go:31-40 | parsing any text keeps a record free of line breaks, also when the text is rejected |
| TomlOverlay.PrintIsFixedPoint | internal/config/toml.go:308-338 | parse, print, parse gives the result of the first parse, for every accepted text |
| TomlOverlay.LoadsBackExactly | internal/config/toml.go:308-344 | printing and parsing over the defaults gives the configuration back if and only if it has no line break |
| Decimal.AtoiLanguage | internal/config/toml.go:157-160 | a text is an integer exactly when it is a sign or none and digits whose sum of places fits 64 bits |
| TomlLanguage.ValueLanguage | internal/config/toml.go:89-162 | a trimmed text is an integer, a boolean or a string exactly when it is a decimal number, true or false, or a quoted text, followed by white space and nothing or a comment; everything else is an error |
| TomlLanguage.EscapeSnoc | internal/config/toml.go:341-344 | quoting goes character by character: a quote and a backslash get a backslash in front, every other character stays |
| TomlLanguage.HeaderLanguage | internal/config/toml.go:65-74 | a line is a header exactly when it is a name without brackets in one pair of brackets, with white space around it or not |
| TomlLanguage.EntryLanguage | internal/config/toml.go:78-162 | a line is an entry exactly when it is a key of permitted characters, an equals sign and a value, with white space between or not |
| TomlLanguage.FileLanguage | internal/config/toml.go:31-297 | a file is accepted exactly when every line is blank, a comment, a header, or an entry for a field of its section with a value of the right kind, and then each field is the last such entry; otherwise the error names the first other line, and the lines in front of it have had their effect |
| SaveFile.Replace | internal/config/toml.go:361-386 | the calls leave exactly the sequence of disk states of the specification, for every failure, and there is success exactly when no call fails |
| SaveFile.Save | internal/config/toml.go:346-386 | the same with the printed configuration as content |
| SaveFile.SaveAtomic | internal/config/toml.go:346-386 | at every moment the target is old or complete with mode 0644 and no other file but the temporary one, with mode 0600 until complete, has changed; success, exactly when no call fails, means new and an error means old; no temporary file stays; for all outcomes if and only if the target exists or is not named like a temporary file |
| SaveFile.SavedLoadsBack | internal/config/toml.go:361-386 | when no call fails, what Save leaves on disk parses to the configuration saved |
| Editor.ApplyAnswer | internal/tui/tui.go:158-168 | an answer that fits is stored; one that does not changes nothing and is asked again unless the input has ended |
| Editor.EditField | internal/tui/tui.go:132-153 | the loop of one prompt consumes the input and changes the field as the pure dialogue says |
| Editor.Edit | internal/tui/tui.go:107-126 | the loop over the fields refines the pure dialogue, stopping at the end of the input or on a read error |
| Prompts.OnePrompt | internal/tui/tui.go:132-168 | the lines that do not fit an integer field are consumed and the field is asked for again; the first blank or fitting line ends the prompt |
| Prompts.WholeDialogue | internal/tui/tui.go:107-168 | thirteen replies, each of any number of lines that do not fit and one that does or is blank, make of the thirteen fields in their order what was typed |
| Prompts.InputEnds | internal/tui/tui.go:107-168 | when the input ends in the middle of a prompt, a last line that fits still counts, all later fields stay, and a read error fails |
| Editor.EditorReachesExactly | internal/tui/tui.go:107-168 | some input turns one configuration into another if and only if they differ in integers and in typed, trimmed, non-empty strings only |
| Editor.EditedReloads | internal/tui/tui.go:107-168 | the editor keeps the printer's precondition, so an edited configuration prints and parses to itself |
| Configure.LoadOrDefault | internal/tui/tui.go:175-184 | the file over the defaults, the defaults when it cannot be looked at, or an error |
| Configure.Run | internal/tui/tui.go:174-201 | which of the four steps fails, with which demand not met, and that the disk changes only in the last one, when the edited configuration meets every demand |
| Configure.RunReloads | internal/tui/tui.go:174-201 | for every file, input and outcome of saving that leaves a valid configuration: when no call fails the file loads as the edited configuration; otherwise it is what it was |
| Decimal.AtoiItoa | internal/config/toml.go:148-162 | every 64-bit integer printed reads back as itself |
| Clamp.ClampKey | internal/keygen/keygen.go:111-120 | the masking in place yields the clamped key |
| Clamp.ClampedValue | internal/keygen/keygen.go:116-118 | as an integer, clamping clears the low three bits and the top bit and sets the one below, and keeps the bits between |
| Clamp.ClampedRange | internal/keygen/keygen.go:116-118 | every clamped key is a multiple of 8 in [2^254, 2^255) (section 5 of RFC 7748) |
| Clamp.ClampIdempotent | internal/keygen/keygen.go:116-118 | clamping twice is clamping once |
| Base64.DecodeEncode | contrib/rootless/rootless.go:430-434 | decoding undoes encoding for byte strings of every length (section 4 of RFC 4648) |
| Base64.EncodeIsStandard | contrib/rootless/rootless.go:430-434 | every character of an encoding is the six bits of its place, looked up in table 1 of RFC 4648, or padding |
| Base64.DecodableTexts | contrib/rootless/rootless.go:430-434 | a text is decoded exactly when, line breaks aside, it is made of groups of four characters of the table with one or two equals signs at the end |
| Base64.HexDigits | contrib/rootless/rootless.go:438 | the digits of a byte are its halves, high half first |
| Base64.HexRoundTrip | contrib/rootless/rootless.go:438 | the hexadecimal form determines the bytes |
| Base64.B64ToHexOfKey | contrib/rootless/rootless.go:430-439 | an encoded key becomes its hexadecimal form if it has 32 bytes and is refused otherwise |
| KeyFiles.GenerateWireGuardKeypair | internal/keygen/keygen.go:141-164 | files and result of every combination of failures, with the private key removed when the public one cannot be made |
| KeyFiles.GenerateSshKeypair | internal/keygen/keygen.go:171-201 | the same for the SSH pair |
| KeyFiles.ReadTrimmedFiles | internal/keygen/keygen.go:97-107 | all trimmed contents in order, or nothing exactly when a file is missing |
| KeyFiles.LoadExisting | internal/keygen/keygen.go:67-93 | keys are loaded exactly when all six files exist, and each is the trimmed content of its own file |
| KeyFiles.GenerateAll | internal/keygen/keygen.go:31-63 | a run reuses complete files without writing, or generates pair by pair and stops at the first failure |
| KeyFiles.SuccessLoads | internal/keygen/keygen.go:31-93 | what a successful run returns is what the files load to |
| KeyFiles.RunSucceeds | internal/keygen/keygen.go:31-63 | a run returns keys if and only if all six files are there or no random source, library call or write fails |
| KeyFiles.PubLineIs | internal/keygen/keygen.go:171-201 | the public key line is the three words ssh-ed25519, the encoded key and the comment |
| KeyFiles.LaterRunsReuse | internal/keygen/keygen.go:27-37 | after one success every later run returns the same keys and leaves the files alone, over any number of runs |
| KeyFiles.CleanRunsLoadMatching | internal/keygen/keygen.go:31-201 | over any runs whose failing writes leave the file as it was, every complete pair on disk matches |
| KeyFiles.TornPairLoads | internal/keygen/keygen.go:67-93 | two runs with torn SSH writes after which unmatched files load |
| KeyFiles.FreshRunsLoadMatching | internal/keygen/keygen.go:31-201 | from an empty directory, with all other writes free to be torn, what loads matches if and only if the two SSH writes cannot both be torn |
| WgIni.MarshalIni | internal/templates/templates.go:67-94 | the first empty field is reported, and otherwise the text is the lines of the two sections |
| WgIni.WgClientConfig.ApplyWgLine | contrib/rootless/parse.go:49-60 | a line sets at most the field of its key |
| WgIni.ParseWgConfig | contrib/rootless/parse.go:21-80 | the scanner loop over the shared record gives the same result as the pure reading, with its line limit and its check for missing fields |
| WgIni.ReadRendered | contrib/rootless/parse.go:21-80 | reading the rendered file returns the same five fields, values with '=' included, if and only if no line reaches the scanner's limit |
| WgLanguage.RenderedLines | internal/templates/templates.go:67-94 | the rendered file, line by line |
| WgLanguage.FileLanguage | contrib/rootless/parse.go:21-80 | every text is refused for a long line, or each field is what the last line with its key, in capitals or not, says, and the text is refused for an empty one |
| KeyPipeline.WriteRunArtifacts | main.go:486-514 | success means both files are written in full; an error names the step, leaves the read-me alone unless its own write failed, and a failed write leaves its file as it was or torn |
| TornClient.CutOff | contrib/rootless/parse.go:21-80 | cut off at any place, a client file is refused for a missing field, or read with the beginning of its last value, or read as what was to be written, by where the cut falls |
| KeyPipeline.KeysReachDevice | contrib/rootless/rootless.go:118-131 | for any two 32-byte keys the client file reads back as the five fields and the device text is five lines: private_key and public_key with the hexadecimal forms of the right keys, the endpoint, the /32 of the server, and 25 seconds |
| KeyPipeline.GeneratedKeysReachDevice | main.go:486-502 | from random bytes through generation, any later runs, rendering, reading and conversion, these lines hold the clamped private key of the client and the public key of the server |
| Ipv4.ParseFormatIp | internal/config/config.go:190-205 | a printed address reads back |
| Ipv4.IpLanguage | internal/config/config.go:130-146 | a text is an address exactly when it is four bytes in decimal without leading zeros, with dots between them |
| Ipv4.CidrLanguage | internal/config/config.go:130-146 | a text is a block exactly when it is an address, a slash and digits of at most 32 |
| Ipv4.MaskedNumber | internal/config/config.go:130-146 | masking byte by byte subtracts the remainder modulo 2^(32-p) |
| Ipv4.ContainsInterval | internal/config/config.go:130-146 | a network contains exactly the 2^(32-p) addresses from its first (section 3.1 of RFC 4632) |
| Ipv4.NetmaskNumber | internal/setup/setup.go:722-725 | the printed netmask reads back as 2^32 - 2^(32-p) |
| Tunnel.Validate | internal/config/config.go:85-98 | accepted exactly when all demands are met: host and user, ports in 1..65535, readable tunnel addresses that differ, the client in the network of the server, a permitted device path; otherwise the error is that of the first demand not met |
| Tunnel.DefaultsLackHost | internal/config/config.go:54-69 | the defaults are a valid configuration as soon as there is a host |
| Tunnel.TunnelAccepted | internal/config/config.go:130-146 | the tunnel check passes if and only if the addresses are readable, differ, and the client lies in [net, net + 2^(32-p)) |
| Tunnel.PeerAllowsOnly | internal/setup/setup.go:225-238 | the /32 text of a peer is a block that holds its address and no other |
| Tunnel.PeersAllowEachOther | internal/config/config.go:85-205 | in a valid configuration each side allows exactly the other's single address, and the addresses differ |
| NetDetect.NetworkInfo.ApplyConfigIp | internal/setup/setup.go:337-349 | a configured address fills address and prefix; an unreadable one changes nothing |
| NetDetect.NetworkInfo.ApplyRouteToken | internal/setup/setup.go:392-414 | only the keyword's own field changes, only when empty, and to the next word |
| NetDetect.NetworkInfo.ParseDefaultRoute | internal/setup/setup.go:376-388 | the nested loops give each field its old value, or the first successor of its keyword over all lines |
| NetDetect.NetworkInfo.FillIpFromAddr | internal/setup/setup.go:420-448 | address and prefix of the first match, when it is readable |
| NetDetect.NetworkInfo.DetectPrefix | internal/setup/setup.go:451-476 | a known prefix stays; otherwise that of the first block of the interface with this address, and 24 when there is none or it is 0 |
| NetDetect.NetworkInfo.DetectInterfaceTopology | internal/setup/setup.go:492-587 | the five steps leave VLAN, bond, mode and bridge fields of the specification and nothing else changed |
| NetDetect.DetectNetwork | internal/setup/setup.go:305-334 | the record, or the first error, for every configuration and every answer of the host |
| NetDetect.FirstSuccessorFirst | internal/setup/setup.go:381-399 | the value taken stands behind the first keyword that has a successor on its line, and is empty exactly when there is none |
| NetDetect.DetectedFields | internal/setup/setup.go:305-476 | a network is detected if and only if it is what the texts say: route fields configured or first behind their keywords, the address and prefix of the configured block, or the source of the route with the prefix of the first block that carries it, or the first block; 24 for no prefix or 0; otherwise there is an error |
| Topology.StaticIpReads | internal/setup/setup.go:173 | address/prefix is a CIDR text exactly when the address is one and the prefix is at most 32 |
| Topology.BuildSetupScriptData | internal/setup/setup.go:113-222 | exactly which inputs are accepted, and for these the addresses of the script as configured and detected, the keys of the right sides in the server configuration, the netmask as a number, and the interface, bridge, bond and VLAN branches lowered as specified with no bond left in any script |
| Topology.ShapeOfDevice | internal/setup/setup.go:492-587 | what is detected of a NIC, bond, bridge or VLAN, nested to any depth, from answers as Linux gives them |
| Topology.GrubInterfaceIsNic | internal/setup/setup.go:129-143 | the interface of the ip= parameter is a NIC the device is built from if and only if the device is of a supported kind |
| Topology.LowersToNicOrVlan | internal/setup/setup.go:145-169 | a supported device becomes its NIC, or a VLAN with its own id on that NIC, named as before or slave.id on a bond |
| BootSafety.ExecFailsClosed | internal/templates/templates.go:150-161 | for every program that guards all but the unguarded commands, ending early means that the last command is the first unguarded one that failed |
| BootSafety.ReachingTheEnd | internal/templates/templates.go:157-231 | under arbitrary outcomes, reaching the end means wg0 was created, addressed, configured and brought up as the last four commands, in that order; ending early leaves it down |
| Reconnect.FirstEthernetIs | internal/templates/templates.go:203-211 | the loop over /sys/class/net picks the first Ethernet interface that is not lo, if any |
| Reconnect.VlanInterface | internal/templates/templates.go:178-186 | with the NIC there, the VLAN branch leaves it up and without addresses, and makes the VLAN exactly when its name is possible and the module for VLANs is there |
| Reconnect.DefaultRouteSet | internal/templates/templates.go:221-224 | the default route is set exactly when the gateway is another host and a neighbour on the device, or the kernel takes a bare on-link route to it; everything else stays |
| Reconnect.GatewayFitsBlock | internal/templates/templates.go:221-224 | on Linux, with the static block alone on the device, that is so if and only if the gateway lies in [first, last] of the block, is not the broadcast address when the prefix is below 31, and is not an address of the host |
| Reconnect.GatewayOutsideLost | internal/templates/templates.go:221-224 | with 10.0.0.2/32 and the gateway 10.0.0.1 the script ends on Linux with the tunnel up and without a default route |
| Reconnect.TunnelMade | internal/templates/templates.go:226-231 | a left-over wg0 goes with its addresses and routes, a new one is made, addressed, configured and up, and nothing else changes |
| Reconnect.PlainOnline | internal/templates/templates.go:199-231 | with the configured name or, when it is missing, on the first Ethernet interface, the script ends online if and only if there is such an interface and the gateway fits; without a fitting gateway only the default route is missing |
| Reconnect.VlanOnline | internal/templates/templates.go:178-231 | a VLAN comes online if and only if its NIC is there under its name, the module for VLANs is in the image, its own name is possible and free, and the gateway fits; its NIC is then without addresses; without the NIC or the module, or with an impossible name, the script ends in front of the tunnel |
| Reconnect.BootNameFits | internal/setup/setup.go:156-161 | the boot interface has a possible name exactly when, for a VLAN on a bond, slave and id have at most 14 characters together |
| Reconnect.RebuildsConnectivity | internal/templates/templates.go:157-231 | detected, lowered and run where only NICs and perhaps a left-over tunnel exist, a supported device ends with IFACE up on the NIC of the ip= parameter (or the first one there is, when a plain NIC's name is missing), its own VLAN id, the detected address and prefix, the default route via the detected gateway, and wg0 up with the configured address, if and only if NIC, module and name are offered and the gateway fits; when only the gateway does not, all but the default route is there |
| Premises.HostDescribes | internal/setup/setup.go:492-587 | for every well-formed device, nested to any depth, there are command outputs that describe it |
| Premises.DetectedOn | internal/setup/setup.go:305-334 | on such a host, without configured values, the address, prefix, gateway and name put into the outputs are detected |
| Premises.EverySupportedDevice | internal/setup/setup.go:75-222 | for every supported device, address, prefix and gateway there are a host, a configuration and a boot world that meet all the premises of the theorem above, with the NIC there and the name free; in it the device comes online if and only if the name fits and the gateway is another host of the static block |
| NicDrivers.ModuleList.AddMod | internal/templates/templates.go:473-478 | a module is appended once and only if it is named and not listed yet |
| NicDrivers.ModuleList.AddModules | internal/templates/templates.go:469-505 | the list keeps what it had and grows by exactly the wanted modules, each once |
| NicDrivers.BootModulesWanted | internal/setup/setup.go:197-206 | the wanted modules include the driver of the NIC the boot script uses, and VLAN support when it makes a VLAN |
| Grub.ReplaceAll | internal/setup/setup.go:691-701 | the replacement loop rewrites every value and reports through its flag whether one already had the parameter |
| Grub.UpdateGrubContent | internal/setup/setup.go:683-707 | the text and the changed flag in all three cases |
| Grub.RenderScan | internal/setup/setup.go:684 | the matches and the characters between them are the whole text |
| Grub.ScanPieces | internal/setup/setup.go:684-691 | the scan finds a value at every place where a leftmost match of the expression starts, with exactly the text up to its quote, and nowhere else |
| Grub.FirstChange | internal/setup/setup.go:691-706 | a change leaves all characters outside the values in place and makes the words of each value the old ones and the parameter |
| Grub.UnchangedWhen | internal/setup/setup.go:703-719 | told by positions of GRUB_CMDLINE_LINUX=" in the text: nothing is changed exactly when some match holds a whole word that starts with ip=, and then the text is returned as it was; this line is appended when there is no match |
| Grub.SecondUpdate | internal/setup/setup.go:683-707 | the exact condition for a second update to change nothing |
| Grub.IpParamIsToken | internal/setup/setup.go:660-662 | the parameter made of validated fields is one word without quotes |
| Grub.IpParamFields | internal/setup/setup.go:660-662 | between colons the parameter holds address, nothing, gateway, netmask, host name, interface and none, in this order |
| Sudo.QuotedIsOneWord | internal/remote/remote.go:244-249 | a quoted text, whatever it holds, adds exactly itself to the word the shell is reading |
| Sudo.SudoCmdTokens | internal/remote/remote.go:240-262 | for every command the shell sees sudo, -S with an empty prompt when there is a password and -n otherwise, sh, -c and exactly the command as one word; without sudo it is the command itself |
| Sudo.WriteFileCmdTokens | internal/remote/remote.go:316-320 | with paths free of single quotes the shell reads mkdir, cat with its redirection, and chmod, with the paths as single words |
| Sudo.OctalReads | internal/remote/remote.go:316-320 | the mode is written in octal |
| Sudo.SudoWriteFile | internal/remote/remote.go:316-330 | through sudo the inner shell reads the same words |
| Sudo.StdinSplits | internal/remote/remote.go:264-276 | with sudo and a password the first line of the input is the password and the rest the content if and only if the password has no line break; otherwise the input stays |
| Unlock.World.RunPty | contrib/rootless/rootless.go:337-360 | a session that is opened is closed on every way out |
| Unlock.World.HandleChangeAndUnlock | contrib/rootless/rootless.go:204-220 | the events and the result of a key change with its optional unlock |
| Unlock.World.PerformUnlock | contrib/rootless/rootless.go:188-198 | the events and the result of an unlock over the tunnel |
| Unlock.World.HandleTunnelFailure | contrib/rootless/rootless.go:290-318 | without a tunnel only a key change runs, directly |
| Unlock.World.RunAll | contrib/rootless/rootless.go:60-87 | the events from device up to device closed, and success exactly when the steps that were asked for succeed |
| Unlock.EveryRunChecks | contrib/rootless/rootless.go:60-318 | every run keeps the protocol: one connection at a time, one session on each, the first closed before the second dial, cryptroot-unlock only through the tunnel and when plain or after a confirmed change, all closed and the device gone at the end |
| Unlock.UnlockStarts | contrib/rootless/rootless.go:188-282 | exactly when cryptroot-unlock starts, with the answers that confirm it |
| Unlock.KeyChangeStarts | contrib/rootless/rootless.go:188-318 | exactly when the key change starts |
| Unlock.DialsOver | contrib/rootless/rootless.go:60-318 | every connection goes through the tunnel when it is up, and past it only when it is not |
| WaitTunnel.Wait | contrib/rootless/rootless.go:134-151 | at most ceil(D/S) dials, exactly as many when they fail at once and the wait times out; less than D + 2S in all; a timeout only after D |

## Left out

- IPv6: addresses and CIDR texts are IPv4; an IPv6 text counts as unreadable here.
- Invalid UTF-8: texts are sequences of Unicode scalar values.
- NetDetect: the regular expressions over `ip` output, the JSON of the setup script and command failures in the middle of an output are answers of the host, not modelled.
- KeyFiles.LoadExisting: a read fails only because the file is missing, and removing a file succeeds.
- KeyFiles: Curve25519, Ed25519 and the random source are parameters.
- Unlock: the trace starts when the WireGuard device is up; a failure half-way through its set-up is not followed.
- Unlock.World.RunPty: terminal handling and the transport are outcomes of the environment.
- WaitTunnel.Wait: time passes only in dials and sleeps, and a sleep has its exact length.
- Sudo: the shell grammar covers words, backslashes, single quotes, `&&` and `>`; every other unquoted operator makes a command unreadable.
- Sudo.WriteFileCmdTokens: the directory of the path is a parameter; computing it is not part of the model.
- Topology: the client and server INI are their field values; reading of the server INI by `wg setconf` is an outcome at boot.
- BootScript: the kernel is the part of Linux that the script touches, with device names in ASCII; routing metrics, IPv6, DHCP and the loading of modules on demand are not in it.
- BootScript: the bond branches of the script have a meaning, but as no script is emitted with them nothing beyond `BootSafety.ReachingTheEnd` is proved about them.
- Reconnect.RebuildsConnectivity: assumes a boot world with at most one default route, in which wg0 is free or a WireGuard device, and a kernel that has WireGuard and accepts the configuration of the tunnel.
- BootScript: whether a bare on-link route and the lowest address of a block are accepted are fields of the kernel, as they differ between kernels; loopback, multicast and 0.0.0.0/8 have no special meaning as gateways.
- TornClient.CutOff: a torn write leaves a beginning of the text, cut between characters; other remains of a write are covered by `KeyPipeline.WriteRunArtifacts` only.
- Configure.Run: looking at the file and reading it are two answers of the operating system about the same file.
- SetupScriptTmpl: apart from the driver block, the setup script (packages, Secure Boot, systemd-boot, the sed form of the GRUB rule) is not given a meaning.
- buildChangeLUKSCmd: the shell text that finds the LUKS device is one opaque command.
- The command line, prompts, status output, README rendering, tool checks, host-key pinning and ssh arguments: plain I/O and string assembly that would add easy members only.
- OutputDir: the directory of a host and the search for its configuration do not agree for all hosts, so no theorem connects them.
