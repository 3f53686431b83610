# Mandatum, modelled and verified

Mandatum checks signed delegation chains: a human sponsor grants an agent some authority, agents
delegate narrower authority to other agents, and an enforcement point in front of a tool server
verifies the chain presented with a call, compares the call with the leaf's grant, asks a policy
point, and admits the action to a history shared by all chains under the same sponsor grant. This
project models that machinery in Dafny and proves what it promises.

`dafny verify dfyconfig.toml` checks everything. One module per file:

| module | models |
|---|---|
| `Mda`, `Attenuation`, `Permits` | claims and their validation; the syntactic narrowing rules; the semantic evaluation of a request; soundness of the one against the other, over chains of any length |
| `History`, `MemoryStore` | the bounded sequence automaton, the unbounded history it stands for, and the store, shared by sibling chains |
| `Verify`, `Chains`, `Issue`, `Authenticity` | the verifier as its loops run, what its verdict means, agreement with issuance, and who signed what is accepted |
| `Base64Url`, `Jose` | base64url (RFC 4648 section 5) and compact serialization (RFC 7515 section 7.1), concretely, and the static key ring |
| `KeyDocument`, `Jwks`, `JwksRuns`, `JwksOutage`, `KeyCache` | reading key documents (RFC 7517 sections 4 and 5, RFC 8037 section 2); the concurrent key resolver as interleaved steps between lock operations; its code as an object updated in place, region by region the same steps |
| `Templates`, `Anchoring`, `DeclaredMapping` | declared mappings: meaning and cost of templates, what requests a mapping means (defaults as in OpenID AuthZEN Authorization API 1.0 section 7.1.1), and the resolver on mutable maps with its budget |
| `Revocation` | the Bloom filter over a byte array with 64-bit words, its wire form, and the monotone checker |
| `Enforcer`, `EnforcerRuns`, `Questions` | the enforcement point that composes the rest, the theorems about all its runs, and what it asks the policy point |
| `Wrappers`, `Strings`, `Clock` | options and results, 64-bit integers, sorted lists of strings, Unix time |

## How the model is set up

- Foreign computations are function-valued parameters with their assumptions stated as predicates:
  JSON (parsing undoes printing, `Jose.Json.LeftInverse`), SHA-256 (`CollisionFree`), Ed25519
  (a signature verifies under its public key, and only over what the key's holder signed), CEL evaluation (any function from source text to a
  result), Unicode case folding (any relation). Only the lemmas that need an assumption require it.
  `Verify` takes any codec; `Jose.CodecOf` is the real one.
- `int`, `int64` and `uint64` are 64 bits wide where they can wrap: depth successors, depth
  budgets, Unix times, filter positions.
- Text is a sequence of characters, taken as valid Unicode. Condition bounds are finite float64
  values, as JSON carries no NaN; since they are only compared, a bound is its position in the order
  of those values. Attribute values may also be NaN or infinite, and NaN satisfies every range, as
  in the code.
- Catalog, mapping and policy answers in a run of the enforcement point are arbitrary; the policy
  point may answer every question differently.
- Iteration over a Go map picks elements in an arbitrary order.
- One call of `Verify` sees one answer per signature and one per revocation status.

## Findings

- The documented position formula for the revocation filter (docs/spec/delegation-assertion.md:224)
  is over unbounded integers; the code wraps at 64 bits. The model follows the code;
  `Revocation.WrappedIndexIsProseIndexIff` says exactly when they agree, and sizes that are
  multiples of 8 but do not divide 2^64 are among those the code builds.
- Condition entailment is unsound for exactly the child conditions that set more than evaluation
  reads: an `eq` beside an empty `in`, a range beside any other comparison, an `in` with a member
  its `prefix` does not allow (`Permits.SoundUnlessWidens`). `Attenuates` alone accepts them;
  `Verify` validates before it compares and `Delegate` before it signs, and validated conditions
  are never of that kind (`Permits.FragmentNeverWidens`).
- Condition entailment needlessly refuses exactly two shapes (`Permits.CondCoversComplete`).
- Rule V7 can never be the rule that refuses (`Chains.DepthCheckNeverFires`): V5 and the structural
  rules imply it.
- The NUL escape for a literal identifier ending in a star lets one literal pattern match a second
  identifier (`Permits.LiteralPatternMatches`), and a NUL in an issuer lets two issuers share a key
  ring slot (`Jose.SlotsDistinctIffNulFree`).
- The refresh limit of the key resolver binds a fetch while a fresh document is held or after an
  accepted one (`JwksRuns.FetchesAreSpaced`). It does not bind fetches that fail: any number of them
  can begin at one instant (`JwksOutage.FailedFetchesAreUnbounded`).
- Sequence constraints introduced below the root share ids with sibling chains. They always bind the
  chains below the link (`History.LinkConstraintsHold`), but a sibling can fire one
  (`History.SiblingTriggerBlocks`): triggering is exact if and only if no other chain fires the id
  first (`History.LinkTriggerExactIff`), and so always for the root's
  (`History.RootConstraintsHold`).
- The empty identifier pattern matches no request, and yet only itself and `*` cover it
  (`Permits.IdCoversExactOnRequests`).

## Model

| member | source | states |
|---|---|---|
| `Mda.Comparisons` | pkg/mda/mda.go:331-344 | The count is one exactly for a condition with exactly one kind of comparison set (a range counts once), and zero exactly for one with none |
| `Mda.ValidateSequence` | pkg/sequence/sequence.go:225-262 | Accepts exactly the sequences with a non-negative budget that constrain something, whose ids are non-empty and pairwise distinct and whose triggers do not match everything |
| `Mda.ValidateCapability` | pkg/mda/mda.go:310-323 | Whatever the order in which the conditions are visited, accepts exactly when type and action are named and every condition is in the fragment |
| `Mda.Validate` | pkg/mda/mda.go:227-308 | Accepts exactly the well-formed claims: version, identities, depth/parent agreement, non-negative depth and budget, capabilities present and each well formed, a valid sequence |
| `Mda.ValidInFields` | pkg/mda/mda.go:227-362 | Valid claims, field by field: version 1, every identity named, depth 0 exactly without a parent, capabilities present with type, action and exactly one kind of comparison per condition, and a sequence that constrains something under distinct, named, triggerable constraints |
| `Attenuation.CapsEntailed` | pkg/verify/attenuation.go:81-96 | The nested loops decide: every child capability is entailed by some parent capability |
| `Attenuation.SeqNoWider` | pkg/verify/attenuation.go:256-296 | The nested loops decide: every parent constraint is the first one carrying its id in the child, unchanged, and a positive parent budget is matched by a positive one no larger |
| `Attenuation.FindIsMembership` | pkg/verify/attenuation.go:280-294 | In a list whose ids do not repeat, the loop's first-match search finds a constraint exactly when the list holds it |
| `Attenuation.Attenuates` | pkg/verify/attenuation.go:48-76 | Accepts exactly when audience, expiry, depth budget (in 64-bit arithmetic), capabilities and sequence are all no wider |
| `Attenuation.CondCoversReflexive` | pkg/verify/attenuation.go:178-244 | A condition of the fragment covers itself |
| `Attenuation.CondCoversTransitive` | pkg/verify/attenuation.go:178-244 | Condition entailment is transitive on the fragment |
| `Attenuation.EntailsReflexive` | pkg/verify/attenuation.go:99-127 | A well-formed capability entails itself |
| `Attenuation.EntailsTransitive` | pkg/verify/attenuation.go:99-127 | Capability entailment is transitive on well-formed capabilities |
| `Attenuation.SequenceNoWiderReflexive` | pkg/verify/attenuation.go:256-296 | A valid sequence is no wider than itself |
| `Attenuation.SequenceNoWiderTransitive` | pkg/verify/attenuation.go:256-296 | Carrying a sequence on is transitive through a valid sequence |
| `Attenuation.NoWiderTransitive` | pkg/verify/attenuation.go:48-76 | All five rules together are transitive on well-formed claims |
| `Attenuation.AnyTwoLinksNarrow` | pkg/verify/attenuation.go:19-26 | Passing the rules between neighbours implies the rules between any two links of a chain of any length |
| `Attenuation.NoWiderInFields` | pkg/verify/attenuation.go:48-76 | Between valid links, the rules hold if and only if the audience is the same, the child expires no later, has less depth, each capability is entailed, and the sequence keeps every constraint and a budget no larger |
| `Attenuation.NothingBelowOutlives` | pkg/verify/attenuation.go:57-69 | Down a narrowing chain of any length nothing expires later, changes audience or gains depth |
| `Attenuation.DepthBudgetBoundsChain` | pkg/verify/attenuation.go:66-69 | Each hop spends budget, so no narrowing chain is longer than its root's budget allows |
| `Permits.Permits` | pkg/verify/permits.go:48-81 | Permits exactly when type, identifier and action are named and some granted capability covers the request |
| `Permits.NamelessIsRefused` | pkg/verify/permits.go:52-59 | A request without type, identifier or action is permitted by no grant |
| `Permits.PermittedByOne` | pkg/verify/permits.go:60-80 | Granted capabilities permit what one of them permits, and none permits nothing |
| `Permits.IdCoversExact` | pkg/verify/attenuation.go:131-148 | The pattern test holds if and only if every identifier the child pattern matches, the empty one included, is matched by the parent pattern |
| `Permits.IdCoversExactOnRequests` | pkg/verify/permits.go:49-57 | Among the identifiers a request can name, the same if and only if, but for one child: the empty pattern, which matches none of them and may be refused all the same |
| `Permits.LiteralPatternMatches` | pkg/verify/permits.go:122-127 | Which identifiers a literal pattern matches: its own and, because a trailing star is escaped with NUL, one more when the pattern ends in star and NUL |
| `Permits.PrefixPatternMatches` | pkg/verify/permits.go:122-127 | Which identifiers a prefix pattern matches: those that start with its prefix and, through the NUL of the escape, at most one more |
| `Permits.CondCoversSound` | pkg/verify/attenuation.go:178-244 | When a fragment child condition is covered, every attribute value (NaN and infinities included) that satisfies the child satisfies the parent |
| `Permits.CondCoversComplete` | pkg/verify/attenuation.go:178-244 | Between fragment conditions, narrower means covered, except for exactly two shapes: a repeated singleton `in` under `eq`, and an empty range under a range (if and only if) |
| `Permits.SoundUnlessWidens` | pkg/verify/attenuation.go:178-244 | For every child condition, validated or not: entailment under every fragment parent is sound if and only if the child does not set more than evaluation reads (an `eq` beside an empty `in`, a range beside any other comparison, or an `in` with a member its `prefix` does not allow) |
| `Permits.WidenedParent` | pkg/verify/attenuation.go:178-244 | For every such child, a parent of the fragment that covers it and refuses a value the child allows |
| `Permits.EntailsSound` | pkg/verify/permits.go:86-117 | Whatever a well-formed child capability covers, the parent capability that entails it covers |
| `Permits.EntailsExact` | pkg/verify/attenuation.go:99-127 | Every request the child covers is covered by the parent if and only if type and action agree, the pattern and the tags are no wider, and every parent condition is matched by a covered one or one of the two needlessly refused shapes, unless the child has an empty `in` and covers nothing; but for those shapes that is entailment |
| `Permits.Separates` | pkg/verify/permits.go:86-117 | For every other pair, a request that the child covers and the parent does not |
| `Permits.NoWiderSound` | pkg/verify/permits.go:48-81 | Whatever a child link's capabilities permit, its parent's permit |
| `Permits.LeafWithinEveryLink` | pkg/verify/permits.go:48-163 | Whatever the leaf of a narrowing chain permits, every link above it permits, for chains of any length |
| `History.Admit` | pkg/sequence/sequence.go:146-180 | The loops compute the one-step decision: budget, first forbidding constraint, then fired ids, sorted |
| `History.Triggered` | pkg/sequence/sequence.go:172-178 | The second loop computes the ids fired by the action, in the order of the constraints |
| `History.FirstForbiddingMeaning` | pkg/sequence/sequence.go:154-166 | The constraint a denial names forbids the action and has fired; when there is none, no fired constraint forbids it |
| `History.FireMeaning` | pkg/sequence/sequence.go:173-178 | The fired ids afterwards are the old ones and those whose trigger the action matches, without repeats |
| `History.DecideMeaning` | pkg/sequence/sequence.go:146-180 | An action is admitted exactly when the budget has room and no fired constraint forbids it; the new state counts it and marks exactly what it triggers |
| `History.DecideInFields` | pkg/sequence/sequence.go:146-200 | In the fields of matchers and actions: admitted exactly when the budget has room and every fired constraint's forbid differs in a field it sets, and fired exactly by what differs in none |
| `History.DenialMeans` | pkg/sequence/sequence.go:149-166 | A denial names no constraint exactly when the budget is used up, and otherwise a fired one that forbids the action |
| `History.MatchesEverythingIff` | pkg/mda/mda.go:180-182 | Only a matcher that sets nothing selects every action |
| `History.DecideIffSafe` | pkg/sequence/sequence.go:146-180 | Against a state that summarizes a history, the decision is exactly whether appending the action keeps the whole history safe, and the new state summarizes the longer history |
| `History.ReplayRefinesMonitor` | pkg/sequence/sequence.go:126-180 | Over any list of attempts, the bounded automaton admits what a monitor remembering everything admits; fired ids stay strictly sorted and are exactly those triggered |
| `History.RecordsStep` | pkg/sequence/memory.go:55-86 | Every admission by any chain extends the shared record: counter, fired ids, and no forbidden action after a trigger |
| `History.LinkConstraintsHold` | pkg/sequence/sequence.go:126-142 | In a history shared with arbitrary other chains, the actions admitted for chains below a link keep that link's constraints and budget |
| `History.LinkTriggerExactIff` | pkg/sequence/sequence.go:154-178 | Throughout a shared history, a constraint introduced by any link counts as fired exactly when a chain below that link matched its trigger, if and only if no other chain fires the id first |
| `History.SiblingTriggerBlocks` | pkg/sequence/sequence.go:154-178 | A concrete run in which a sibling's trigger, under the same id, blocks an action of a chain whose own constraint nothing has triggered |
| `History.RootConstraintsHold` | pkg/sequence/sequence.go:146-180 | When all chains descend from one grant, the counter is the number admitted, the history is safe, and a root constraint is marked fired exactly when an admitted action matched its trigger |
| `History.SharedHistoryIsSafe` | pkg/sequence/sequence.go:126-180 | For every interleaving of attempts by chains under one root, the admitted history is safe for the root's sequence, within its budget, with exact counter and exact fired ids |
| `MemoryStore.MemoryStore.Update` | pkg/sequence/memory.go:55-86 | Succeeds exactly when the call is live, there is room and fn accepts the root's state, and then changes that root alone; every failure leaves all histories unchanged and says which it was |
| `MemoryStore.MemoryStore.Forget` | pkg/sequence/memory.go:109-113 | Removes that root's history and nothing else |
| `MemoryStore.MemoryStore.Admit` | pkg/sequence/sequence.go:126-142 | The evaluator over this store: no sequence admits at once, then the refusals in order, and only an admission changes a history |
| `MemoryStore.AdmissionIff` | pkg/sequence/sequence.go:126-142 | Admitted if and only if there is no sequence, or the root is named, the sequence valid, the call live, the root known or below the cap (100,000 unless set, none when negative), and the automaton admits |
| `MemoryStore.AdmissionWrites` | pkg/sequence/memory.go:55-86 | What is admitted is written to its root's history alone |
| `MemoryStore.AdmissionKeepsCap` | pkg/sequence/memory.go:62-93 | Every admission keeps the number of histories within the cap |
| `Verify.CheckShape` | pkg/verify/verify.go:176-184 | The first link whose claims are not well formed, under V1, or none |
| `Verify.CheckStructure` | pkg/verify/verify.go:225-254 | The first link that breaks depth, parent commitment (V1) or issuer continuity (V2), or none; the depth successor wraps at 64 bits |
| `Verify.CheckSignatures` | pkg/verify/verify.go:257-264 | The first link whose issuer did not sign its bytes, or none |
| `Verify.CheckTime` | pkg/verify/verify.go:267-280 | The first link not yet or no longer valid within the skew, or none |
| `Verify.CheckAttenuation` | pkg/verify/attenuation.go:19-26 | The first link wider than the one above it, or none |
| `Verify.CheckRoot` | pkg/verify/verify.go:285-302 | The first link naming another sponsor than the first link, or none |
| `Verify.CheckDepth` | pkg/verify/verify.go:311-319 | The leaf, when the chain is longer than the root's budget, or none |
| `Verify.CheckRevocation` | pkg/verify/verify.go:323-335 | The first link that is revoked or whose status is unknown, or none |
| `Verify.CheckAudience` | pkg/verify/verify.go:339-346 | The leaf, when it names another audience, or none |
| `Verify.ChainDigest` | pkg/verify/verify.go:351-358 | The digest of the line-terminated digests of the serializations, in order |
| `Verify.ParseAll` | pkg/verify/verify.go:152-175 | The claims the bytes carry, or the first link that is empty or does not parse with V1 or V3; the caller's claims are not read |
| `Verify.RunChecks` | pkg/verify/verify.go:176-205 | The first refusal in the order of the checks |
| `Verify.Verify` | pkg/verify/verify.go:141-222 | The verdict is a function of the serialized bytes alone: whatever claims the caller attached do not matter |
| `Chains.RefusalIsFirst` | pkg/verify/verify.go:141-205 | A refusal names a rule the named link breaks, every earlier check passed on all links, and the same check on all earlier links |
| `Chains.RefusalNamesBrokenRule` | pkg/verify/verify.go:225-346 | The rule a refusal names is broken by the link it names, stated in that link's fields for each of V1 to V9 |
| `Chains.RefusalMeansEarlierHold` | pkg/verify/verify.go:173-205 | The order of the rules: a refusal under one means that what every earlier check establishes holds of the whole chain, so no signature is checked on a chain that is not well formed and linked |
| `Chains.UnparsedIsRefused` | pkg/verify/verify.go:152-175 | A chain with a link that does not parse is refused at the first such link, under V3 when its header is at fault and V1 otherwise |
| `Chains.DepthCheckNeverFires` | pkg/verify/verify.go:311-319 | The depth limit V7 follows from attenuation: no chain that passes the checks before it fails it |
| `Chains.AcceptedIffValid` | pkg/verify/verify.go:141-222 | A chain is accepted if and only if its bytes carry claims that satisfy every rule, stated for the chain as a whole; the result is then the summary of those claims |
| `Chains.DepthIsPosition` | pkg/verify/verify.go:225-254 | In a chain of well-formed, linked assertions a link's depth is its position: the 64-bit successor cannot wrap |
| `Chains.SharedLinkSharedAncestry` | pkg/verify/verify.go:225-254 | Two accepted chains sharing a serialized link anywhere share its position and everything above it, even when accepted by different verifiers |
| `Chains.LeafDeterminesChain` | pkg/verify/verify.go:225-254 | With a collision-free hash, two accepted chains ending in the same serialized leaf are the same chain |
| `Chains.ChainDigestCommits` | pkg/verify/verify.go:351-358 | Equal chain digests if and only if equal lists of serializations |
| `Chains.JoinDigestsAppends` | pkg/verify/verify.go:351-358 | The digested text is one digest and one line break per serialization, in order |
| `Chains.AcceptedWithinEveryLink` | pkg/verify/verify.go:206-222 | Whatever an accepted chain's result permits, every link's grant permits, the sponsor's first |
| `Chains.AcceptedLeafCarriesSequences` | pkg/verify/attenuation.go:256-296 | The leaf of an accepted chain carries every link's budget and constraints, and its own sequence is valid |
| `Chains.AcceptedNothingOutlives` | pkg/verify/attenuation.go:62-69 | In an accepted chain no link expires later than any link above it, or has as much depth left |
| `Chains.AcceptedLinkInFields` | pkg/verify/verify.go:176-184 | Every link of an accepted chain is valid field by field, at the depth of its position |
| `Chains.AcceptedSummary` | pkg/verify/verify.go:206-222 | What the result says holds of the whole chain: one audience, one sponsor, every principal in order, the leaf's capabilities, sequence and id, depth one less than the length and within the sponsor's budget, the digest of all serializations |
| `Chains.RevokedLinkKillsChain` | pkg/verify/verify.go:323-335 | One revoked link, or one of unknown status, refuses every chain that contains it |
| `Issue.DelegateContinues` | pkg/issue/issue.go:137-187 | A delegated link is signed by its issuer, well formed, and continues its parent as V1, V2, V5 and V6 require |
| `Issue.GrantClaimsIff` | pkg/issue/issue.go:189-226 | A grant makes claims if and only if subject, id, capabilities and a positive lifetime are given; the claims carry them field by field |
| `Issue.DefaultsComeFromParent` | pkg/issue/issue.go:155-171 | Depth less one, sequence and audience come from the parent exactly where the grant names none |
| `Issue.DelegateIff` | pkg/issue/issue.go:137-187 | Delegation succeeds if and only if the holder signs with a key, depth is left for what is asked, and the claims are valid and no wider than the parent's |
| `Issue.SponsorGrantIff` | pkg/issue/issue.go:98-128 | A sponsor grant succeeds if and only if signer, sponsor, audience and depth are given and its claims are valid |
| `Issue.BuiltIsIssued` | pkg/issue/issue.go:98-187 | Every chain made by one Sponsor call and any number of Delegate calls is signed, continuous and narrowing from end to end |
| `Issue.IssuedAcceptedIff` | pkg/issue/issue.go:98-240 | Issuer and verifier agree: a built chain is accepted if and only if its keys resolve, every link is within its time, none is revoked and the audience is the sponsor's |
| `Issue.IssuedSignaturesVerify` | pkg/issue/issue.go:228-240 | With every signer's public key registered, every link of a built chain verifies |
| `Issue.WithinBudget` | pkg/issue/issue.go:151-166 | In a built chain, depth is position and position plus remaining budget never exceeds the sponsor's depth |
| `Issue.BuiltNeverOutlives` | pkg/issue/issue.go:177-184 | No delegate of a built chain, at any depth, expires later than a link above it |
| `Issue.HolderCanDelegate` | pkg/issue/issue.go:137-187 | Whatever the clock reads, a holder with budget left can hand on all it holds to anyone, spending one unit |
| `Issue.SponsorDepthIsExact` | pkg/issue/issue.go:98-187 | Under a sponsor depth of d, a chain with n delegations can be built if and only if n is at most d |
| `Base64Url.RoundTrip` | pkg/jose/jose.go:48-48 | Decoding undoes encoding, for every byte string (RFC 4648 section 5, without padding) |
| `Base64Url.EncodeInjective` | pkg/mda/mda.go:217-220 | Distinct byte strings have distinct encodings |
| `Base64Url.Vectors` | pkg/jose/jose.go:48-48 | The test vectors of section 10 of RFC 4648 for one group, without padding, and the two digits of the URL alphabet |
| `Jose.JoinSplit` | pkg/jose/jose.go:88-88 | Splitting at dots loses nothing |
| `Jose.ParseSigned` | pkg/jose/jose.go:54-115 | Parsing a signed serialization (RFC 7515 section 7.1) returns the header and the claims that were signed |
| `Jose.ParseIff` | pkg/jose/jose.go:85-137 | What parses is three parts whose header decodes, names EdDSA and this type and asks for no extension, and whose payload decodes; the header is the fault exactly when it is read and is not that |
| `Jose.CheckedBytesAreReceivedBytes` | pkg/jose/jose.go:191-203 | What the signature is checked over is everything received before the last dot |
| `Jose.SignedVerifies` | pkg/jose/jose.go:180-204 | The verifier rebuilds exactly the bytes that were signed, so a signature verifies under its public key |
| `Jose.CodecCollisionFree` | pkg/mda/mda.go:217-220 | With a collision-free hash, digests of serializations are distinct and contain no line break |
| `Jose.KeyRing.Add` | pkg/jose/jose.go:161-173 | Files the key exactly when the issuer is named and the key has the right size, replacing only that slot |
| `Jose.KeyRing.VerifySignature` | pkg/jose/jose.go:180-204 | Accepts exactly when the serialization parses, the slot of the chain's issuer and the header's kid holds a key, and the signature holds over the received bytes |
| `Jose.RingAcceptsOnlySigned` | pkg/jose/jose.go:180-204 | Whatever is accepted ends in a signature that verifies, under a key filed for the issuer, over everything received before the last dot |
| `Jose.RingAcceptsOnlyTheHolder` | pkg/jose/jose.go:180-204 | If signatures cannot be forged, the holder of a key filed for the issuer signed those bytes |
| `Authenticity.AcceptedChainIsSigned` | pkg/verify/verify.go:257-264 | If signatures cannot be forged, every link of an accepted chain was signed by the holder of a key filed for its issuer, who below the first link is the subject of the link above |
| `Jose.RingVerifiesSigned` | pkg/jose/jose.go:180-204 | With the signer's public key in the issuer's slot, what it signs verifies |
| `Jose.SlotsDistinctIffNulFree` | pkg/jose/jose.go:171-171 | An issuer shares no slot with a NUL-free one if and only if it contains no NUL itself |
| `KeyDocument.ReadKey` | pkg/jose/jwks.go:389-419 | The Ed25519 key of a JSON Web Key (RFC 8037 section 2), or none when it is not one this verifier can use |
| `KeyDocument.UsableIff` | pkg/jose/jwks.go:389-419 | A key is usable if and only if it is an OKP Ed25519 key of 32 bytes that names no other algorithm, use or operation |
| `KeyDocument.ReadKeySet` | pkg/jose/jwks.go:346-384 | A document is accepted exactly when some key is usable, every usable key has a kid unless it is the only one, and no kid names two keys; the map then resolves exactly those kids |
| `KeyDocument.AcceptedDocumentIff` | pkg/jose/jwks.go:351-384 | In the document's own keys: accepted if and only if some key is usable and no two usable ones conflict over a kid or its absence; each then resolves under its kid and nothing else does, save the empty kid |
| `KeyDocument.UnusableKeysIgnored` | pkg/jose/jwks.go:351-363 | A key this verifier cannot use, anywhere in a document, changes nothing |
| `KeyDocument.ReorderedDocumentIsSame` | pkg/jose/jwks.go:346-384 | Any reordering of a document is accepted alike and resolves alike |
| `KeyDocument.EmptyKidResolvesIffAlone` | pkg/jose/jwks.go:377-384 | The empty kid resolves if and only if the document holds one usable key |
| `KeyCache.IssuerState.LookupLocked` | pkg/jose/jwks.go:275-293 | On the fields in place: fetch when nothing fresh is held, answer a known kid, refuse an unknown one inside the refresh limit, else fetch |
| `KeyCache.IssuerState.Store` | pkg/jose/jwks.go:249-263 | Refuses a document below the highest sequence seen and changes nothing, else holds it, raises the ratchet and records the time |
| `KeyCache.Resolver.AddSource` | pkg/jose/jwks.go:169-177 | Replaces the issuer's source and drops what was cached under the old one: the machine's registration step |
| `KeyCache.Resolver.First` | pkg/jose/jwks.go:211-227 | The first critical section, maps and states updated in place, is the machine's first step, and hands out the object cached for the issuer |
| `KeyCache.Resolver.Second` | pkg/jose/jwks.go:234-241 | The second look, under the fetch lock, is the machine's two steps with the clock read once for the look and once, later, for the record: answered from what is held, or the start of a fetch recorded in that state alone |
| `KeyCache.Resolver.Third` | pkg/jose/jwks.go:248-269 | The third critical section is the machine's storing step, and returns the key the machine answers with |
| `JwksRuns.RunKeeps` | pkg/jose/jwks.go:211-270 | The invariant of locks, tasks, states and cache holds wherever any interleaving of lookups, source changes, fetch replies and clock movements leads |
| `JwksRuns.CacheComesFromRegisteredSource` | pkg/jose/jwks.go:169-177 | In every reachable state, a document cached for an issuer was fetched from the source now registered |
| `JwksRuns.SourceWasRegistered` | pkg/jose/jwks.go:211-217 | In every run, a lookup that went on from its first look works with the source that stood registered for its issuer at the moment it first held the lock |
| `JwksRuns.ServedKeysAreGood` | pkg/jose/jwks.go:211-270 | A key returned is the key of that kid in a document from the source that stood registered when the call first held the lock, younger than the ttl when served or fetched during the call |
| `JwksRuns.FetchesDoNotOverlap` | pkg/jose/jwks.go:229-243 | Two fetches into one state never overlap |
| `JwksRuns.NoDeadlock` | pkg/jose/jwks.go:211-270 | While a call is unfinished, the call it waits for (the holder of the lock it needs, or the holder of the lock that one needs, or itself) can take its next step |
| `JwksRuns.StepsAreBounded` | pkg/jose/jwks.go:211-270 | In every run a call takes at most ten steps, each bringing it nearer its end; without deadlock, every call can be brought to its end |
| `JwksRuns.LookupIff` | pkg/jose/jwks.go:275-293 | Answered exactly for a known kid under a document younger than the ttl, refused exactly for an unknown one inside the refresh limit, else fetched for |
| `JwksRuns.FirstLookAnswers` | pkg/jose/jwks.go:211-227 | A first look refuses an unregistered issuer, answers from what is cached for a registered one, or goes on to fetch |
| `JwksRuns.FetchedIsHeldIff` | pkg/jose/jwks.go:248-269 | A fetched document is held, and answers its call, exactly when its sequence is no lower than the highest seen; otherwise nothing changes |
| `JwksRuns.FetchedIsDated` | pkg/jose/jwks.go:316-350 | A document carries the source its call found and the time its fetch returned; a failed fetch refuses the call |
| `JwksRuns.HeldIsHighest` | pkg/jose/jwks.go:249-262 | In every reachable state a held document's sequence is the highest recorded |
| `JwksRuns.HighestNeverFalls` | pkg/jose/jwks.go:254-261 | Between any two points of a run the highest sequence of a state never falls, whatever documents come |
| `JwksRuns.LookupMayStart` | pkg/jose/jwks.go:275-293 | Where the lookup says to fetch, a fetch may start within the limits, at once or any time later |
| `JwksRuns.StartIsSpaced` | pkg/jose/jwks.go:234-241 | A fetch begun when the limits allow it keeps all the starts of its state spaced |
| `JwksRuns.FetchesAreSpaced` | pkg/jose/jwks.go:275-293 | In every run, a fetch begun while a fresh document is held comes at least minRefresh after the previous start, and one after an accepted document at least min(ttl, minRefresh) after |
| `JwksRuns.FetchCountIsBounded` | pkg/jose/jwks.go:275-293 | In a stretch of accepted documents, the number of fetches times min(ttl, minRefresh) is at most the time elapsed |
| `JwksOutage.FailedFetchesAreUnbounded` | pkg/jose/jwks.go:275-293 | Under every configuration and for every n, a run in which n failed fetches of one issuer all begin at one instant |
| `Revocation.Index` | pkg/revoke/revoke.go:127-138 | Positions, summed with 64-bit wrap-around and then reduced, are in range |
| `Revocation.Indices` | pkg/revoke/revoke.go:127-138 | The loop yields the k positions of an identifier in order |
| `Revocation.Mark` | pkg/revoke/revoke.go:108-111 | Setting one bit in the byte array sets that position and no other |
| `Revocation.NewSet` | pkg/revoke/revoke.go:80-116 | The bits set are exactly the positions of the listed identifiers |
| `Revocation.MayContain` | pkg/revoke/revoke.go:143-153 | Answers whether every position of the identifier is set; an empty filter contains nothing |
| `Revocation.NoFalseNegatives` | pkg/revoke/revoke.go:143-153 | Every listed identifier answers "may contain", for every valid size and number of positions |
| `Revocation.FilterIsDetermined` | pkg/revoke/revoke.go:104-116 | The bits depend only on which identifiers are listed, not on order or repeats |
| `Revocation.WrappedIndexIsProseIndexIff` | docs/spec/delegation-assertion.md:224-224 | The code's positions are those of the documented formula for all identifiers if and only if m divides 2^64 or at most one position is used |
| `Revocation.ProseIndexDiffersAt24` | pkg/revoke/revoke.go:135-135 | A concrete pair of words and a size of 24 bits for which the two formulas differ |
| `Revocation.EncodeThenParse` | pkg/revoke/revoke.go:162-205 | Encoding then parsing returns the same set if and only if it was generated after the epoch, and is refused otherwise |
| `Revocation.ParsedSetIff` | pkg/revoke/revoke.go:176-205 | What parses as a set is exactly a record of version 1 with 1 to 64 positions, a time after the epoch and a filter that decodes and is not empty, read as it stands |
| `Revocation.Checker.IsRevoked` | pkg/revoke/revoke.go:263-282 | Unknown for an empty identifier or a stale set, clean outside the filter, else what the exact lookup says, or revoked |
| `Revocation.CleanIff` | pkg/revoke/revoke.go:263-282 | Unknown exactly for an empty identifier or a set past its age, clean when a position is unset, else what the exact lookup says or revoked without one |
| `Revocation.Checker.Replace` | pkg/revoke/revoke.go:293-305 | Accepts exactly a set not older in sequence, then time, and changes nothing otherwise |
| `Revocation.NewestIsHeld` | pkg/revoke/revoke.go:293-305 | After any offers, one with a higher sequence is the set held, one with a lower sequence never is, and at the same sequence the time decides |
| `Revocation.HeldSequenceNeverFalls` | pkg/revoke/revoke.go:293-305 | Over any offers, accepted or refused, the held sequence never falls and at one sequence the time does not either |
| `Revocation.RevokedStaysRevoked` | pkg/revoke/revoke.go:263-305 | With a publisher that never withdraws a revocation, an identifier revoked in any set ever held is never later reported clean without an exact lookup |
| `Templates.ScalarConverts` | pkg/authzen/declared.go:682-703 | What each result without parts becomes: numbers but NaN and infinities, texts, truth values, null, an optional's value or its absence |
| `Templates.ListConverts` | pkg/authzen/declared.go:704-719 | A list converts, element by element, if and only if every element does and none is an absent optional |
| `Templates.MapConverts` | pkg/authzen/declared.go:720-739 | A map converts if and only if its keys are texts and no value fails; exactly the absent optionals are left out |
| `Templates.SizeWithinCost` | pkg/authzen/declared.go:674-743 | The nodes and text bytes of a converted value are at most what converting it spends |
| `Templates.CostIsSize` | pkg/authzen/declared.go:674-743 | Without optionals they are exactly what converting it spends |
| `Templates.ExpressionResolves` | pkg/authzen/declared.go:537-630 | A text after one dollar compiles if and only if its expression does, and means what evaluating it gives |
| `Templates.ObjectResolves` | pkg/authzen/declared.go:637-649 | An object resolves if and only if no field fails; exactly the absent optionals are left out |
| `Templates.ArrayResolves` | pkg/authzen/declared.go:651-668 | An array resolves, element by element, if and only if no element fails or is absent |
| `Templates.ProducedWithinCost` | pkg/authzen/declared.go:620-668 | All the values the expressions of a template produce together are at most what resolving it spends |
| `Templates.ProducedIsCost` | pkg/authzen/declared.go:500-510 | And exactly so much when every expression gives a value without optionals |
| `Templates.EscapedRoundTrip` | pkg/authzen/declared.go:537-571 | Every JSON value with leading dollars escaped compiles, resolves back to itself, and spends nothing |
| `Anchoring.SubjectIff` | pkg/authzen/declared.go:311-348 | A subject is made if and only if nothing in it is foreign, empty or contrary to the sponsor; it is the sponsor, an identity unless typed, with the given properties and the issuer |
| `Anchoring.ActionIff` | pkg/authzen/declared.go:350-362 | An action is made if and only if it is there and named and holds nothing foreign; name and properties are those given |
| `Anchoring.ResourceIff` | pkg/authzen/declared.go:364-379 | A resource is made if and only if it is there with type and id and holds nothing foreign; they are those given |
| `Anchoring.ContextIff` | pkg/authzen/declared.go:381-396 | A context is made if and only if it holds no delegation, no other agent and no twin of either key; it is what was given and those two |
| `Anchoring.AnchoredIff` | pkg/authzen/declared.go:310-399 | A request is made if and only if its four parts are, and is made of them |
| `Anchoring.AnchoredSpeaksForChain` | pkg/authzen/declared.go:310-399 | A request that is made carries the sponsor, issuer, agent and delegation of the chain, and no case-fold twin of the pinned keys |
| `Anchoring.ParseMapping` | pkg/authzen/declared.go:87-159 | The loop accepts exactly the mappings with one known envelope, allowed members, compiling expressions and, for a batch, at least one entry and no options |
| `Anchoring.ParseIff` | pkg/authzen/declared.go:87-159 | A document is a mapping if and only if it is one request template, or defaults and at least one entry, of the allowed members, with no options and no subject in an entry |
| `Anchoring.EntryRequestAlone` | pkg/authzen/declared.go:253-277 | Request i is its own entry anchored over the defaults, whatever the other entries are |
| `Anchoring.EntryWins` | pkg/authzen/declared.go:258-267 | Each part of request i is its entry's where the entry sets it, whole, and the defaults' where it does not |
| `Anchoring.ParsedMappingRequests` | pkg/authzen/declared.go:87-159 | A parsed mapping makes an error or at least one request; all of them speak for the chain and have one identical subject |
| `Anchoring.OutputWithinCost` | pkg/authzen/declared.go:490-510 | Across defaults and all entries, what expressions produce is at most what the mapping spends |
| `Anchoring.LimitsIff` | pkg/authzen/declared.go:44-47 | The limits are 10,000 values and 1,048,576 bytes, on what a mapping spends and so on what it produces |
| `DeclaredMapping.Budget.Spend` | pkg/authzen/declared.go:500-510 | Both counters always go down; succeeds exactly when neither is below zero |
| `DeclaredMapping.Convert` | pkg/authzen/declared.go:674-743 | In whatever order maps are visited, fails exactly when the value has no JSON form or the budget does not cover its cost, and otherwise builds that value and spends exactly that |
| `DeclaredMapping.ConvertMap` | pkg/authzen/declared.go:716-738 | The same for a map: keys are charged, absent optionals omitted, keys that are no text refused, in any order |
| `DeclaredMapping.ResolveNode` | pkg/authzen/declared.go:616-668 | Resolving a template fails exactly when an expression or conversion fails or the cost does not fit, and otherwise gives its meaning and spends exactly its cost |
| `DeclaredMapping.ResolveObject` | pkg/authzen/declared.go:637-649 | The same for an object's members, in any order |
| `DeclaredMapping.Cloned` | pkg/authzen/declared.go:435-441 | A copy in a new map, equal to the original, which is not written |
| `DeclaredMapping.AnchorSubject` | pkg/authzen/declared.go:311-347 | The subject is the one anchoring specifies, built without writing to any map that existed before |
| `DeclaredMapping.AnchorContext` | pkg/authzen/declared.go:375-395 | The context is the one anchoring specifies, built without writing to any map that existed before |
| `DeclaredMapping.Anchor` | pkg/authzen/declared.go:310-399 | The request on the heap is the one anchoring specifies, an error exactly when that is, and no earlier map is written |
| `DeclaredMapping.MakeEntries` | pkg/authzen/declared.go:253-277 | Every entry's request, made over shared defaults, is still the request it would be alone after all the others have been made |
| `DeclaredMapping.ToolCallRequests` | pkg/authzen/declared.go:236-279 | Succeeds exactly when no expression, conversion or anchoring fails and the cost of defaults and all entries fits both limits; the requests are then the ones the mapping means, in every order of visiting maps |
| `Enforcer.Enforcer.Authorize` | pkg/mcp/mcp.go:297-363 | The stages in order, early exits included, have exactly the outcome of the step function on histories and questions asked |
| `EnforcerRuns.ClearedIff` | pkg/mcp/mcp.go:298-327 | A call reaches the policy point if and only if it names a tool, its chain verifies, the catalog knows the tool and the leaf permits the tool by name with the catalog's tags and attributes; otherwise the refusal names the stage |
| `EnforcerRuns.FinishedIff` | pkg/mcp/mcp.go:329-362 | A cleared call is authorized exactly when its mapping, or the default request, gives evaluations, each is allowed, and the action with the tool's tags is admitted; otherwise the refusal names the stage |
| `EnforcerRuns.AuthorizedIsNotForbidden` | pkg/mcp/mcp.go:352-360 | No constraint of the leaf that has fired under its root forbids an authorized call, in the fields of matcher, configuration and tool, and its budget had room |
| `EnforcerRuns.AuthorizedInsideEveryGrant` | pkg/mcp/mcp.go:297-363 | An authorized call lies inside the grant of the sponsor and of every link below, and each of its evaluations was put to the policy point and allowed |
| `EnforcerRuns.AskedOnlyInsideGrant` | pkg/mcp/mcp.go:297-345 | The policy point is asked only about calls that passed verification and their grant |
| `EnforcerRuns.HistoriesChangeOnlyWhenAuthorized` | pkg/mcp/mcp.go:346-363 | A refused call leaves every history as it was; an authorized one touches only its root's |
| `EnforcerRuns.PolicyOnlyNarrows` | pkg/mcp/mcp.go:330-363 | What some policy point authorizes, the one that always allows authorizes too, with the same result and the same histories afterwards |
| `EnforcerRuns.EntryIsOfCall` | pkg/mcp/mcp.go:319-360 | An authorized call is recorded with its own bytes, the request for its tool and the action with that tool's tags |
| `EnforcerRuns.EntriesAreAttempts` | pkg/mcp/mcp.go:297-363 | In every run, every recorded call is an attempt of that run with the tool's tags and attributes the catalog gave it |
| `EnforcerRuns.HistoriesAreCapped` | pkg/sequence/memory.go:62-93 | No run holds more histories than the cap |
| `EnforcerRuns.RunConsistent` | pkg/mcp/mcp.go:297-363 | In every run each call ever authorized passed its chain's grants, discarded histories included, and every stored history records exactly its root's calls since it was last discarded |
| `EnforcerRuns.GrantHolds` | pkg/mcp/mcp.go:297-363 | End to end: in every run, for any link of any chain, every call ever authorized below it lies inside its grant, and those since the root's history was last discarded keep its budget and do nothing it forbids after its trigger |
| `EnforcerRuns.NothingForbiddenAfterTrigger` | pkg/mcp/mcp.go:297-363 | The same in the fields of constraint and action: of two authorized calls under a link, the later one differs from a forbid or the earlier one from its trigger |
| `Questions.DefaultInFields` | pkg/authzen/mapping.go:93-123 | The default request asks whether the identity may call the tool by name, with server and arguments exactly when there are any |
| `Questions.EvaluationsSpeak` | pkg/mcp/mcp.go:332-338 | With the default request or a parsed mapping, a call's questions are at least one, all speak for the verified chain's sponsor, issuer, agent and delegation, and all have one subject |
| `Questions.QuestionsSpeak` | pkg/mcp/mcp.go:332-350 | Every question one call puts to the policy point speaks for the chain it presented, and an authorized call had at least one question, allowed |
| `Questions.RunQuestionsSpeak` | pkg/mcp/mcp.go:297-363 | In every run, each question ever asked speaks for a chain that was presented and accepted |
| `EnforcerRuns.SponsorHistoryExact` | pkg/sequence/sequence.go:126-180 | In every run, as long as no other grant takes its id, a sponsor grant's stored counter is the number of calls authorized under it, and its constraints are marked fired exactly when one of those calls matched the trigger |

## Left out

- EnforcerRuns.SponsorHistoryExact: assumes no other grant is issued under the same id; the code keys histories by the root's id and so assumes it too.
- EnforcerRuns.GrantHolds: the sequence half speaks of the calls since the operator last discarded the root's history, because discarding resets what the store remembers; the grant half speaks of every call.
- EnforcerRuns.RunConsistent: concurrent calls stand in a run in the order in which they reach the store, each with its own arbitrary policy answers; how their questions interleave at the policy point is not modelled.
- Jose.ParseSigned: assumes the JSON printer and strict decoder are inverse on headers and claims; JSON text itself is not modelled.
- Chains.AcceptedIffValid: signature and revocation answers are functions fixed within one call; a status changing between two links of the same call is not modelled.
- History.Admit: the invocation counter is unbounded; its wrap after 2^63 admissions is not modelled.
- Permits.CondCoversSound: attribute values arrive already converted; the rounding of large integers to float64 happens before the model starts.
- KeyCache.Resolver.AddSource: URL parsing and the https requirement come before the critical section and are not modelled; the model takes any registered source text.
- JwksRuns.ServedKeysAreGood: the clock does not go backwards between steps.
- Revocation.NewSet: the sizing of the filter from a false-positive rate uses logarithms; size and number of positions are parameters, any positive multiple of 8 and 1 to 64.
- Revocation.Checker.IsRevoked: ages are exact differences; the saturation of Go durations near 292 years is not modelled.
- Anchoring.ParseMapping: starts from the decoded JSON value; duplicate keys, number forms and trailing text are the JSON decoder's.
- DeclaredMapping.ToolCallRequests: errors are not told apart and the variables given to expressions are inside the evaluation parameter; cancellation during evaluation is a failed expression.
- DeclaredMapping.Anchor: an error is reported without saying which member caused it, so the order of the checks inside one request is not modelled.
- Enforcer.Enforcer.Authorize: a refusal is its stage, without its text; evaluation requests are of any type here and made concrete in `Questions`.
- Questions.QuestionsSpeak: a delegation record is its chain digest; the sponsor, actors, depth and leaf id beside it are copied from the same result and left out.
- MemoryStore.MemoryStore.Update: runs under one mutex in the source and is atomic here; the ended context is the `live` flag.
- HTTP: the MCP server, the AuthZEN client and discovery, and the transport half of key fetching (a fetch returns any document or an error).
- The false-positive rate of the revocation filter.
- Error texts, descriptions of matchers and the reasons list of a refused permission.
- Constructors, options and their nil checks, `Tools.Describe`, `ParseChain`, `FailingStore`, `MappingFromInputSchema`: straight-line code.
- Shell scripts, interoperability policies and the audit log.
