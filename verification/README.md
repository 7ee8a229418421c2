# KPI knowledge base: formula resolution, identifiers and registration

This project models the KPI knowledge-base interface of the smart_app
repository (`kb_interface.py`, present in the same form under `knowledge-base/`
and `knowledge-base2/`). The module keeps an ontology of KPIs in memory. Each KPI
individual has a label, a description, a unit of measure, a human-readable
formula and a parsable formula. Parsable formulas refer to other KPIs through
tokens `R°<name>°<a>°<b>°<c>°`. The interface offers:

- `start`: reads the snapshot counter `SAVE_INT` from `config.cfg` and loads the
  snapshot `backups/<SAVE_INT-1>.owl`;
- `get_formulas(kpi)`: resolves a KPI label into the formulas it depends on,
  through a first-in first-out worklist. Each token in a dequeued formula is
  looked up by label, and the found KPI's formula is appended to the results
  and to the worklist. The result is three parallel lists: formulas, entity
  names, labels;
- `_generate_hash_code(label)`: the identifier of a new KPI individual. It takes
  the SHA-256 digest of the label, encodes it in URL-safe Base64, removes `-`
  and `_`, and keeps at most 22 characters;
- `add_kpi(...)`: validates a new KPI in three ordered checks, creates the
  individual under its superclass, saves a new snapshot, increments the counter
  and rewrites the configuration file;
- `get_onto_path()`: the path of the last snapshot.

Layout, one module per file:

- `wrappers.dfy` (`Option`, `Result`) and `seqs.dfy` (small facts about
  concatenation) are shared helpers.
- `decimal.dfy` covers the decimal text of the counter and snapshot paths.
- `base64url.dfy` covers the URL-safe Base64 encoding of RFC 4648, section 5.
- `hashcode.dfy` covers the identifier.
- `formula_tokens.dfy` covers the reference tokens and the left-to-right
  non-overlapping scan of `re.findall`.
- `ontology.dfy` is the store, abstracted as maps.
- `resolver.dfy` is the specification of `get_formulas`, with a bound on
  dequeues.
- `registrar.dfy` holds the checks and the insertion of `add_kpi`.
- `knowledge_base.dfy` holds the class `KnowledgeBase`. Its fields are the
  ontology, the counter, the snapshot files written and the configuration
  text. Its methods carry the worklist loops of `get_formulas` and the state
  changes of `add_kpi`.
- `resolver_example.dfy` works one example through end to end.

The code and its documentation disagree in a few places. The model follows the
code:

- `get_formulas` returns formulas, entity names, labels, in that order
  (`kb_interface.py:161`). Its docstring lists the labels second, and the
  router in `knowledge-base2/main.py:26` unpacks them under swapped names.
- The docstring of `_generate_hash_code` calls the identifier alphanumeric. The
  code removes only `-` and `_`, so `=` padding survives. The identifier is
  alphanumeric whenever cleaning leaves more than 22 characters, and is `8=`
  for a digest of 32 bytes 0xFF.
- `get_formulas` "returns None" on a missing or ambiguous label. It raises
  IndexError when the entity found has no parsable formula. It never returns
  when the worklist never empties, as when a reachable cycle of references
  all resolve (a failing lookup on the way still ends it). The model returns a `Failure` for each of
  these: `AmbiguousOrMissing`, `MissingFormula` and `OutOfFuel`.

## Model

| member | source | states |
|---|---|---|
| Decimal.NatString | knowledge-base/kb_interface.py:245 | `str` of a counter value is a non-empty string of decimal digits without a leading zero |
| Decimal.IntStringRoundTrip | knowledge-base/kb_interface.py:44-45 | reading back with `int` the text that `str` wrote gives the same counter, negative values included |
| Decimal.SnapshotPathVersion | knowledge-base/kb_interface.py:242 | the path `backups/<v>.owl` names version v: parsing the version back out of it yields v, so distinct versions are saved to distinct files |
| Base64Url.CharOf | knowledge-base/kb_interface.py:81 | a 6-bit value maps to a URL-safe alphabet character, and the character is alphanumeric exactly for values below 62 |
| Base64Url.SextetOf | knowledge-base/kb_interface.py:81 | the inverse of the alphabet mapping |
| Base64Url.Group | knowledge-base/kb_interface.py:81 | three bytes encode to four alphabet characters |
| Base64Url.Tail | knowledge-base/kb_interface.py:81 | a final one or two bytes encode to four characters ending in `=`, with two `=` exactly when one byte is left |
| Base64Url.Encode | knowledge-base/kb_interface.py:81 | the encoding has four characters per started group of three bytes |
| Base64Url.EncodeAlphabet | knowledge-base/kb_interface.py:81 | every encoded character is an alphabet character except `=` padding, which appears only in the last two places and as often as the byte count modulo three demands |
| Base64Url.NonCanonicalRefused | knowledge-base/kb_interface.py:81 | the decoder refuses a final character whose unused low bits are set, as section 3.5 of RFC 4648 allows: `AB==` is refused while `AA==` decodes to the byte 0 |
| Base64Url.DecodeEncode | knowledge-base/kb_interface.py:81 | encoding loses nothing: decoding the encoding of any bytes gives them back |
| HashCode.RemoveChar | knowledge-base/kb_interface.py:84 | `replace(c, '')` leaves no `c`, is not longer than its input, and keeps only characters of its input |
| HashCode.RemoveCharAppend | knowledge-base/kb_interface.py:84 | removal distributes over concatenation, so the remaining characters keep their order |
| HashCode.RemoveCharCount | knowledge-base/kb_interface.py:84 | every other character is kept as many times as it occurs |
| HashCode.Clean | knowledge-base/kb_interface.py:84 | the cleaned encoding holds no `-` and no `_` and only characters of the encoding |
| HashCode.CleanCount | knowledge-base2/kb_interface.py:84 | cleaning keeps every character other than `-` and `_` as many times as it occurs |
| HashCode.CleanAppend | knowledge-base2/kb_interface.py:84 | cleaning distributes over concatenation |
| HashCode.GenerateHashCode | knowledge-base/kb_interface.py:77-89 | the identifier has at most 22 characters, none `-` or `_`, each alphanumeric or `=`; it is a prefix of the cleaned encoding and is cut only when the cleaned encoding is longer than 22 |
| HashCode.HashCodeAlphanumeric | knowledge-base2/kb_interface.py:81-87 | for a 32-byte digest whose cleaned encoding is longer than 22 characters, the identifier is exactly 22 alphanumeric characters |
| HashCode.PaddingSurvives | knowledge-base/kb_interface.py:84-87 | the `=` padding is not removed: a digest of 32 bytes 0xFF gives the identifier `8=` |
| FormulaTokens.Scan | knowledge-base/kb_interface.py:134 | a successful match of the groups yields four groups and a strictly shorter rest |
| FormulaTokens.ScanGroupsValid | knowledge-base/kb_interface.py:134 | every matched group is a run of `[A-Za-z_]` |
| FormulaTokens.ScanText | knowledge-base/kb_interface.py:134 | the matched text is exactly the groups, each followed by `°` |
| FormulaTokens.ScanGroup | knowledge-base/kb_interface.py:134 | a run of `[A-Za-z_]` followed by `°` is read as one whole group: the greedy group cannot stop earlier or later |
| FormulaTokens.MatchAt | knowledge-base/kb_interface.py:134 | a match at the start of a formula consumes at least one character |
| FormulaTokens.MatchAtSound | knowledge-base/kb_interface.py:134 | a match is a token with a non-empty first group and name-character groups, and the formula is that token's text followed by the rest |
| FormulaTokens.MatchRender | knowledge-base/kb_interface.py:139 | a well-formed token at the start of a formula is matched whatever follows it, with the same four groups, so group 1 is its name |
| FormulaTokens.FindAll | knowledge-base/kb_interface.py:134 | every match `re.findall` returns is a well-formed token |
| FormulaTokens.FindAllEmpty | knowledge-base/kb_interface.py:134 | `re.findall` finds nothing exactly when no position of the formula starts a match |
| FormulaTokens.FindAllFirstMatch | knowledge-base/kb_interface.py:134 | when there are matches, the first is taken at the leftmost position that starts one; the formula is the text before it, the token and the rest; the remaining matches are those of the rest, so matches appear left to right without overlap |
| FormulaTokens.FindAllRender | knowledge-base/kb_interface.py:134 | a token at the start of a formula is its first match, and the scan resumes right after it (matches do not overlap) |
| FormulaTokens.FindAllSkip | knowledge-base/kb_interface.py:134 | text without the letter `R` contributes no match and is passed over |
| FormulaTokens.ReferencedNamesRender | knowledge-base/kb_interface.py:139 | the names taken as group 1 of the matches of a formula that starts with a token begin with that token's name |
| FormulaTokens.ReferencedNamesSkip | knowledge-base2/kb_interface.py:139 | text without the letter `R` contributes no name |
| Ontology.Lookup | knowledge-base/kb_interface.py:108-116 | a label designates an entity exactly when one entity carries it, and then that entity is the whole search result |
| Resolver.ExpandAppends | knowledge-base/kb_interface.py:137-158 | the inner loop over the matches of one formula appends one entry per match in order, labels equal to the matched names, and appends the same formulas to the worklist; earlier entries are untouched |
| Resolver.ExpandFill | knowledge-base/kb_interface.py:137-158 | conversely, lists that extend the results by one found entry per matched name, in order, are exactly what the inner loop builds, with the same formulas appended to the worklist |
| Resolver.ProgressStep | knowledge-base/kb_interface.py:132-158 | one `pop(0)` and its expansion keep the worklist invariant (the results are the dequeued formulas followed by the worklist, every entry found by its label) and add the formula's names to the labels |
| Resolver.ReachableStep | knowledge-base/kb_interface.py:132-158 | one `pop(0)` and its expansion lead from a loop state to the next: the worklist invariant holds, the labels after the root are the references of the dequeued formulas, and each dequeued formula was enqueued by an earlier one |
| Resolver.UnrollIsExpansion | knowledge-base/kb_interface.py:132-158 | whenever the worklist loop ends, its result is a complete expansion, for any reference scanner |
| Resolver.ResolveWithIsExpansion | knowledge-base2/kb_interface.py:120-158 | a resolution that succeeds is a complete expansion of its root |
| Resolver.ResolveIsExpansion | knowledge-base/kb_interface.py:120-158 | a successful `get_formulas` gives three lists of equal length headed by the root's formula, entity name and label; the later labels are the token names of all listed formulas, breadth-first and left to right, one per occurrence without de-duplication; every entry is its label's unique entity and that entity's first parsable formula; every formula after the first was enqueued by an earlier one |
| Resolver.ReachableUnique | knowledge-base/kb_interface.py:120-158 | for each number of dequeues there is at most one loop state: the dequeued formulas, the worklist and the three lists are determined by the root |
| Resolver.ReachablePredecessor | knowledge-base/kb_interface.py:132-158 | every loop state after a dequeue comes, by one `pop(0)` and its expansion, from a loop state whose worklist starts with the formula dequeued last |
| Resolver.ReachableReached | knowledge-base/kb_interface.py:120-158 | every loop state is one `get_formulas` passes through: resolving the root with at least as much fuel as the state's dequeues equals continuing from that state with the fuel left |
| Resolver.ExpansionPrefix | knowledge-base/kb_interface.py:120-158 | of two complete expansions of a root, the shorter is a prefix of the longer and its references fill all but its first position |
| Resolver.ExpansionUnique | knowledge-base/kb_interface.py:120-158 | a root has at most one complete expansion, so the expansion property determines the result of a successful `get_formulas` |
| Resolver.ResolveLength | knowledge-base2/kb_interface.py:137-158 | the number of entries is one plus the number of token occurrences in all listed formulas |
| Resolver.EntryExplained | knowledge-base/kb_interface.py:142-153 | a lookup of label l fails on l itself exactly when l is carried by zero or several entities; any other failure names the entity that carries l, which has no parsable formula; a success is that entity |
| Resolver.ExpandExplained | knowledge-base/kb_interface.py:137-153 | a failure of the loop over one formula's matches is the failure of the first matched name whose lookup fails, every earlier name having been found |
| Resolver.UnrollExplained | knowledge-base/kb_interface.py:132-153 | from a loop state, a failure is a lookup failing on a name matched in the formula at the head of the worklist of a loop state with fewer dequeues than the bound, after that formula's earlier names were found; `OutOfFuel` means the loop state after as many dequeues as the bound still has a non-empty worklist (loop states are the ones `get_formulas` passes through, one per number of dequeues: ReachableReached, ReachableUnique) |
| Resolver.ResolveExplained | knowledge-base/kb_interface.py:108-153 | every failure of `get_formulas` is the root label's own lookup failing, or a failure as in UnrollExplained, from the first loop state, with the bound `fuel`; a root label carried by zero or several entities fails on that label, with no partial result |
| Resolver.UnrollFuelMonotone | knowledge-base/kb_interface.py:132 | the bound on dequeues only cuts the loop short: an outcome reached within a bound is the same under every larger bound |
| Resolver.ResolveFuelMonotone | knowledge-base2/kb_interface.py:132 | the same for `get_formulas` from a root label |
| Resolver.UnrollSelfLoop | knowledge-base/kb_interface.py:132-158 | a worklist holding only copies of a formula whose references are exactly its own label never empties |
| Resolver.BareTokenReferences | knowledge-base/kb_interface.py:134-139 | a formula that is exactly the token of a name references that name alone |
| Resolver.SelfReferenceNeverEnds | knowledge-base2/kb_interface.py:132-158 | a KPI whose formula references its own label and nothing else (a formula that is exactly its own token, for instance) makes `get_formulas` run out of every bound |
| Registrar.ValidateOutcomes | knowledge-base/kb_interface.py:197-218 | the KPI is added exactly when its label is unused and the superclass label designates exactly one entity that is the KPI class or has a parent descending from it; each rejection is the first check that fails, in the order label, superclass count, superclass kind |
| Registrar.DependsOnValue | knowledge-base/kb_interface.py:233-238 | `depends_on` is left unset exactly when neither flag is given; otherwise it is the machine class if flagged, followed by the operation class if flagged |
| Registrar.HumanFormula | knowledge-base/kb_interface.py:193-194 | the human-readable formula is the one given unless it is missing or empty, when the parsable one stands in |
| Registrar.InsertKpi | knowledge-base/kb_interface.py:221-238 | the new individual has exactly the given label, the superclass as its only parent, the given description, unit, human-readable formula and parsable formula, and the given `depends_on` value, or the `depends_on` map is untouched when none is given; every other entity keeps all its entries, and class ancestry is unchanged |
| Registrar.InsertKeepsOtherLabels | knowledge-base/kb_interface.py:221-222 | any other label is carried by the same entities as before, except the new identifier |
| Registrar.InsertFindsNewLabel | knowledge-base2/kb_interface.py:221-229 | after adding under an unused label, that label designates the new individual alone |
| Registrar.InsertKeepsLabelsUnique | knowledge-base/kb_interface.py:197-222 | adding a KPI under an unused label keeps every label carried by at most one entity |
| Registrar.InsertedResolves | knowledge-base/kb_interface.py:229 | a KPI just added with a formula that references nothing resolves to that formula alone, under the new individual's name and its label |
| KbInterface.KnowledgeBase.Start | knowledge-base/kb_interface.py:44-48 | the counter is the integer in the configuration text, which is kept as read, and the ontology is the snapshot saved under the previous version |
| KbInterface.KnowledgeBase.OntoPath | knowledge-base/kb_interface.py:247-254 | the path names version `SAVE_INT - 1`, and it is the snapshot file that holds the ontology in memory |
| KbInterface.KnowledgeBase.HashCodeOf | knowledge-base/kb_interface.py:65-89 | the identifier for a label has at most 22 characters, none `-` or `_`, and is a prefix of the cleaned encoding of the label's digest |
| KbInterface.KnowledgeBase.FindUnique | knowledge-base/kb_interface.py:142-150 | the search result when it holds exactly one entity, or nothing |
| KbInterface.KnowledgeBase.GetFormulas | knowledge-base/kb_interface.py:91-161 | the worklist loop returns the resolution of the label, which on success is a complete expansion; it fails as the source does on a missing or ambiguous label and a missing formula |
| KbInterface.KnowledgeBase.ExpandMatches | knowledge-base2/kb_interface.py:137-158 | the loop over the matches of one dequeued formula computes one expansion step, or the failure of its first bad lookup |
| KbInterface.KnowledgeBase.AddKpi | knowledge-base/kb_interface.py:164-245 | the outcome is the first failing check; on failure the ontology, counter, snapshots and configuration are unchanged; on success the individual is inserted, the snapshot is saved under the old counter, the counter rises by one, the configuration is rewritten as its decimal text, the last snapshot path names the file just saved, and unique labels stay unique |
| KbInterface.KnowledgeBase.Commit | knowledge-base/kb_interface.py:241-245 | the ontology is saved under the snapshot path of the current counter, the counter rises by one, the configuration is rewritten as its decimal text, and the state stays consistent, with the new snapshot as the last one |
| ResolverExample.TwoReferences | knowledge-base/kb_interface.py:134 | two tokens separated by text without `R` give their two names in order |
| ResolverExample.CostReferences | knowledge-base/kb_interface.py:139 | the formula `R°power°°°°* R°tariff°°°°` references `power` then `tariff` |
| ResolverExample.EnergyCost | knowledge-base/kb_interface.py:120-161 | resolving `energy_cost` gives its formula, then those of `power` and `tariff`, as formulas, names, labels |
| ResolverExample.RegisterThenResolve | knowledge-base2/kb_interface.py:221-229 | registering `energy_cost` and then resolving it gives the new individual's formula first, followed by those of `power` and `tariff` |

## Left out

- SHA-256 and the UTF-8 encoding of the label are not modelled. The digest of a
  string is a field of the knowledge base (`digestOf`), supplied when it is
  built.
- The ontology library's internals are abstracted as maps. This covers loading,
  `search`, `ancestors()`, `is_a`, property access and `get_name()`. `search(label=…)`
  is modelled as exact label equality; the library's wildcard patterns are not
  modelled.
- Language tags on labels and strings (`locstr(..., lang='en')`) are not
  modelled; the text alone is stored.
- RDF/XML serialisation and file contents are abstracted. A snapshot is the
  ontology value stored under its path, and the configuration file is its text.
- Failing writes, and a crash between the save and the configuration rewrite,
  are not modelled. Each commit step is taken to succeed.
- `print` diagnostics are not modelled; the outcome datatypes name each message.
- KbInterface.KnowledgeBase.Start: the property and class nodes found by
  `search(...)[0]` (lines 51-59) are parameters of the constructor. The case
  where those searches find nothing and Python raises IndexError is not
  modelled. Reading the configuration and loading a missing snapshot are
  preconditions, where the source raises.
- Decimal.ParseInt accepts an optional `-` and decimal digits only. Python's
  `int` also accepts surrounding whitespace, a `+` sign, underscores between
  digits and non-ASCII decimal digits (Arabic-Indic or full-width digits, for
  instance); a configuration holding those is outside the model.
- KbInterface.KnowledgeBase.GetFormulas, Resolver.Resolve: the source loops
  forever when the worklist never empties, as when a reachable cycle of
  references all resolve. The model bounds the number of dequeued
  formulas by `fuel` and reports `OutOfFuel`. The bound is only a cut-off
  (Resolver.ResolveFuelMonotone), and a KPI whose formula references its own
  label and nothing else exhausts every bound (Resolver.SelfReferenceNeverEnds).
- KbInterface.KnowledgeBase.AddKpi: the source returns None in every case. The
  model returns which outcome was reached.
- KbInterface.KnowledgeBase.AddKpi, Registrar.InsertKpi: creating an
  individual whose identifier already names an entity (two labels with the
  same identifier) is modelled as replacing that entity's entries.
- Registrar.InsertKpi: a superclass that is itself an individual is not
  modelled; the source would fail to call it as a class.
- Ontology.IsKpiClass: the `ancestors` map is taken as given, and nothing
  requires a class to be among its own ancestors, as owlready2's
  `ancestors()` guarantees. A direct subclass of the KPI class is accepted by
  the model only when the ontology value records the KPI class among its own
  ancestors.
- Concurrency is not modelled, because the source has no locking.
- The HTTP routers in `main.py` and the Express backend are not part of this
  model.
