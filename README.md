# A verified model of a small C JSON parser

The repository is a small JSON-like parser written in C. Its core has three parts:

- `DEFINE_HASHMAP` in hashmap.h is a string-keyed open-addressing map. It uses quadratic probing, starts with 64 slots, and doubles and rehashes when `size >= cap * 0.75`.
- `DEFINE_VECTOR` in vector.h is a growable array. It starts with a capacity of 32 and offers `push`, `pop` and a clamping `at`.
- json.c is a one-pass tokenizer and a parser driven by a stack. It keeps a stack of pending object keys and a stack of open containers. Each finished value is merged into the container on top, or into the result record when no container is open.

The model keeps each part in the form the C code has:

- `HashMaps.HashMap` is a class over an array of optional buckets. It is proved against the pure table functions of `HashTable`, and `HashTableFacts` proves their properties.
- `Vectors.Vector` is a class over an array.
- `JsonParser.Parser` is a class whose methods update the offset, the two stacks and the result. `JsonParser.JsonParse` is the token loop, proved equal to the pure `Json.Parse`. `JsonSteps` states what each token, each merge and each close does, and `JsonFacts` proves what the tokenizer and the token loop guarantee, with a few concrete documents.

How the C behaviour is represented:

- The source is a `seq<char>`. Index `|s|` reads as the NUL terminator (`CStrings.CharAt`).
- `strspn` and `strchr` are written out (`CStrings.Span`, `CStrings.Strchr`).
- How far `strtod` reads is written out as a recognizer in `Numerals`. It covers leading white space, the sign, decimal and hexadecimal numerals with their exponents, `inf`, `infinity` and `nan(...)`.
- The murmur hash is a parameter `hash: string -> U32`. Nothing is assumed about it beyond its 32-bit range.
- Dereferencing NULL in C is a `None` or an explicit `Undefined` outcome. This covers the miss in `get`, an unterminated string, and `pop` of an empty context stack.

Where the design description and the code disagree, the model follows the code:

- `set` never looks for an equal key. Setting a key that is already present adds a second bucket (`SetKeepsEqualKey`), and until the next resize `get` keeps returning the older value (`GetIgnoresLaterSet`). A resize reinserts the buckets in slot order, so after it the newer bucket can come first on the probe sequence.
- The resize never duplicates a bucket (`RehashMoves`). It can drop one, though: quadratic probing over a power-of-two capacity does not visit every slot, so a probe sequence can be full. Every bucket that survives stays retrievable by `get` (`StoredIsFound`, `FoundAfterSet`).
- A numeral is a value only when `,`, `}`, `]` or the end follows it. Anything else clears `ok` (`ScanningContinuesAfterError`).
- An error does not stop the parse. It only clears `ok`, and scanning goes on until the end token.
- Every value the parser builds has `ok` false. A document that parses successfully is therefore reported as not ok, and `ok` stays true only for an input that never put a value into the result and never took an error path (`Json.Parse`, `EmptyArrayIsNotOk`, `UnclosedArrayIsOk`).
- A closing bracket does not have to match the kind of the open context (`MismatchedCloseIsAccepted`).

## Model

| member | source | states |
|---|---|---|
| HashMaps.HashMap.constructor | hashmap.h:26-41 | a new map has capacity 64, size 0 and every slot empty, and satisfies the map invariant |
| HashMaps.HashMap.Set | hashmap.h:61-109 | the new slots and size are exactly `TableSet` of the old ones; the map invariant is kept; the slot array is the old one or a fresh one |
| HashMaps.HashMap.Rehashed | hashmap.h:64-85 | the fresh array of `new_cap` slots is `RehashPrefix` of the old one: each old bucket, in slot order, goes to the first empty slot of its own probe sequence, or is dropped when that sequence is full |
| HashMaps.HashMap.Get | hashmap.h:111-128 | returns exactly `TableGet`: the value of the first bucket on the key's probe sequence whose key is equal, skipping empty slots, or None for a miss; the map is not modified (the probe loop is `Search`) |
| HashMaps.HashMap.Search | hashmap.h:114-127 | the probe loop over the slot array returns exactly `Lookup` from probe number 0 |
| HashTable.Probe | hashmap.h:77-79 | the probe index `(h % cap + i * i) % cap` is a valid slot index |
| HashTable.FirstEmpty | hashmap.h:101-108 | the first empty slot of the probe sequence: every earlier probe is occupied; None only when every probe number below `cap` hits an occupied slot |
| HashTable.Lookup | hashmap.h:114-127 | None iff no probed slot holds the key; otherwise the value of a bucket holding the key at the first probe number that does |
| HashTable.TableGet | hashmap.h:111-128 | a value `get` returns is the value of a bucket stored under exactly that key |
| HashTable.RehashPrefix | hashmap.h:70-85 | the rehashed array has exactly `new_cap` slots (that it holds only buckets of the old array, none twice, is `RehashMoves`) |
| HashTable.Grow | hashmap.h:63-89 | the resize keeps `size` and doubles the capacity exactly when `size >= cap * 0.75` (as `4 * size >= 3 * cap`) |
| HashTable.Place | hashmap.h:78-83 | a bucket lands in the slot of the first empty probe of its hash, and a full probe sequence leaves the slots unchanged; the length is kept |
| HashTable.Insert | hashmap.h:92-108 | the insert keeps the capacity and either grows `size` by one or changes nothing at all (which slot it fills is `SetOutcome`) |
| HashTable.TableSet | hashmap.h:61-109 | `set` keeps or doubles the capacity and grows `size` by at most one |
| HashTableFacts.CapacityFacts | hashmap.h:32-64 | every capacity 64 * 2^k is at least 64 and a multiple of four (so `cap * 0.75` is exact), and doubling it gives a capacity |
| HashTableFacts.NewTableValid | hashmap.h:32-34 | the new table has 64 empty slots and size 0 and satisfies the map invariant, every bucket lying on its key's probe sequence included |
| HashTableFacts.BucketsHeld | hashmap.h:20-24 | a bucket is among the stored buckets exactly when some slot points to it |
| HashTableFacts.BucketsFill | hashmap.h:103-105 | filling one empty slot adds exactly that bucket to the stored multiset |
| HashTableFacts.PlaceBuckets | hashmap.h:78-83 | placing a bucket adds it to the stored multiset when its probe sequence has an empty slot, and adds nothing otherwise |
| HashTableFacts.RehashStep | hashmap.h:70-85 | one step of the rehash loop adds exactly the current old bucket to the new multiset when its probe sequence has an empty slot, and nothing otherwise |
| HashTableFacts.RehashMoves | hashmap.h:70-85 | rehashing moves buckets and never copies them: the new stored multiset is contained in the old one |
| HashTableFacts.GrowFacts | hashmap.h:63-89 | the resize creates and duplicates no bucket: the stored multiset after it is contained in the one before |
| HashTableFacts.SetOutcome | hashmap.h:92-108 | after the resize, either the key's probe sequence is full and nothing changes at all, or the slot of the first probe number `j` whose slot `(hash(key) % cap + j * j) % cap` is empty receives the new bucket, every earlier probe is occupied, no other slot changes, and `size` grows by one |
| HashTableFacts.LoadAfterInsert | hashmap.h:63-105 | one insert after the resize test keeps `4 * size <= 3 * cap` |
| HashTableFacts.SetPreservesValid | hashmap.h:32-105 | `set` keeps the capacity at 64 * 2^k and the load at most three quarters, `size` bounds the stored buckets, and every stored bucket stays on its key's probe sequence |
| HashTableFacts.PlaceOnProbe | hashmap.h:78-83 | placing a bucket keeps every occupied slot on its own key's probe sequence |
| HashTableFacts.RehashOnProbe | hashmap.h:70-85 | every bucket the rehash places lies on its key's probe sequence over `new_cap` |
| HashTableFacts.SetOnProbe | hashmap.h:61-109 | `set`, with or without a resize, keeps every occupied slot on its own key's probe sequence |
| HashTableFacts.StoredIsFound | hashmap.h:111-125 | in a valid map, `get` finds a value for the key of every stored bucket |
| HashTableFacts.FoundAfterSet | hashmap.h:61-125 | every bucket that survives the resize of a `set` is still found by `get` after the `set` |
| HashTableFacts.GetAfterSetFresh | hashmap.h:101-125 | after a successful `set` of a key the map did not hold, with or without a resize, `get` returns the value just set |
| HashTableFacts.SetKeepsEqualKey | hashmap.h:101-108 | without a resize, `set` keeps every occupied slot, so a successful `set` of a key already present leaves a second bucket with that key |
| HashTableFacts.GetIgnoresLaterSet | hashmap.h:101-125 | when the key's probe sequence is occupied up to a bucket holding the key, a later `set` of that key (without a resize) does not change what `get` returns |
| Vectors.Vector.constructor | vector.h:14-29 | a new vector has `len` 0, `cap` 32 and no elements |
| Vectors.Vector.Push | vector.h:45-57 | the elements become the old ones plus the value at the end; the capacity doubles exactly when `len >= cap`; `len <= cap` is kept |
| Vectors.Vector.Pop | vector.h:59-65 | on an empty vector, None and nothing changes; otherwise the former last element is returned and the rest of the elements are kept |
| Vectors.Vector.At | vector.h:67-79 | on a non-empty vector, the element at `index` when it is below `len`, and the last element for every larger index, `(size_t)-1` included |
| Vectors.Vector.UpdateLast | json.c:107-118 | replaces the top element and keeps the others; this is the C code's write through the pointer the top context holds |
| CStrings.CharAt | json.c:33-44 | the character read at an index is NUL exactly at or past the end of the string, or at an embedded NUL |
| CStrings.Span | json.c:36-38 | `strspn`: a run of characters that are all in the set, ending at the end of the string or at a character not in the set |
| CStrings.Strchr | json.c:69-70 | `strchr` for a non-NUL character: the index of the first occurrence before any NUL, or None when the terminator comes first |
| Numerals.NumeralLength | json.c:83-89 | the prefix that `strtod` reads starting at the index lies within the string |
| Json.Punctuation | json.c:50-67 | the single-character token kinds: defined exactly for the four white-space characters and `{ } [ ] , :`, and Whitespace exactly for the white-space characters |
| Json.Scan | json.c:47-97 | each lexeme consumes at least one character, and every lexeme except the end token lies within the string |
| Json.ScanUndefined | json.c:68-71 | `scan_token` is undefined only at a quote with no closing quote after it, and reports that quote's offset |
| Json.MatchOffset | json.c:36-38 | `match` moves the offset past white space only when asked to, and stops at a character that is not white space |
| Json.Peek | json.c:40-44 | `match` returns the character exactly when it is NUL or in `accept`, and -1 (None) otherwise |
| Json.Merge | json.c:99-124 | merging keeps the offset, the stack depth and the context invariant; the result changes, to the merged value, exactly when no context is open |
| Json.Close | json.c:155-164 | `}` and `]` are undefined exactly on an empty context stack, reported at the current offset; otherwise the stack loses one context, the invariant is kept, and the result is kept or has `ok` false |
| Json.Step | json.c:137-200 | one turn of the switch: the offset moves forward and stays within the string; the context invariant is kept; the result is kept or has `ok` false; `{` and `[` push one context, `]` pops one, `}` pops one unless it takes the error path, and every other token keeps the depth; it is undefined only for a close token on an empty stack, at an offset within the string |
| Json.Run | json.c:135-203 | along the loop, the result is either the record the run started from or has `ok` false; an unterminated string is reported at a quote with no closing quote after it; an empty-stack pop is reported at an offset past the start and within the string |
| Json.Parse | json.c:126-204 | `json_parse` reports `ok` exactly when it returns the untouched `{.ok = true}` record |
| JsonSteps.MergeAtRoot | json.c:102-105 | with no open context the value becomes the result record and nothing else changes |
| JsonSteps.MergeIntoArray | json.c:107-111 | with an array on top the value is appended to it; the keys, the result and the contexts below are unchanged |
| JsonSteps.MergeIntoObject | json.c:112-118 | with an object on top the last pending key is popped and the pair is `set` into its table; the result and the contexts below are unchanged |
| JsonSteps.MergeWithoutKey | json.c:113-116 | with an object on top and no pending key the value is dropped and nothing changes |
| JsonSteps.MergeThenGet | json.c:112-118 | a member merged under a key the object did not hold is stored there, and `get` returns it, unless its probe sequence was full |
| JsonSteps.CloseIntoResult | json.c:155-164 | closing the only open context makes it the result record |
| JsonSteps.CloseIntoArray | json.c:155-164 | closing a context whose parent is an array appends the closed container to that array |
| JsonSteps.CloseIntoObject | json.c:155-164 | closing a context whose parent is an object `set`s the closed container there under the last pending key, which is popped |
| JsonSteps.CloseWithoutKey | json.c:155-164 | closing a context whose parent is an object with no pending key loses the closed container |
| JsonSteps.StepOpen | json.c:142-162 | `{` and `[` push an empty object or array context and change nothing else |
| JsonSteps.StepSeparator | json.c:138-141 | white space, `:` and `,` change nothing |
| JsonSteps.StepClose | json.c:146-165 | `]` closes the top context at once; `}` skips white space and closes it only when `,`, `}`, `]` or the end follows, and otherwise only clears `ok` |
| JsonSteps.StepString | json.c:166-182 | after white space, a string followed by `:` becomes a pending key; followed by `,`, `}`, `]` or the end it is merged as a value; otherwise `ok` is cleared |
| JsonSteps.StepNumeral | json.c:183-194 | after white space, a numeral followed by `,`, `}`, `]` or the end is merged as a value; otherwise, `:` included, `ok` is cleared |
| JsonParser.Parser.constructor | json.c:127-133 | the parser starts at offset 0 with two new, empty stacks and the result `{.ok = true}` |
| JsonParser.Parser.Next | json.c:33 | returns the character at the offset (NUL at the end) and advances the offset by one |
| JsonParser.Parser.Match | json.c:35-45 | the new offset is `MatchOffset` and the result is `Peek` there: the peeked character is never consumed |
| JsonParser.Parser.ScanToken | json.c:47-97 | the token and the new offset are exactly the lexeme `Scan` gives, or the same undefined behaviour |
| JsonParser.Parser.ScanString | json.c:68-81 | a string token runs to the next quote and the offset moves past it; without a closing quote the behaviour is undefined |
| JsonParser.Parser.ScanNumeral | json.c:82-96 | a numeral token is as long as `strtod` reads; otherwise the end token |
| JsonParser.Parser.MergeValue | json.c:99-124 | the new state is exactly `Merge` of the old one |
| JsonParser.Parser.Dispatch | json.c:137-200 | the new state is exactly `Step` of the old one, or the same undefined behaviour is reported |
| JsonParser.Parser.CloseContext | json.c:155-164 | the new state is exactly `Close` of the old one, or an empty context stack is reported |
| JsonParser.Parser.StringToken | json.c:166-182 | a string followed by `:` is a pending key; one followed by `,`, `}`, `]` or the end is merged; otherwise `ok` is cleared |
| JsonParser.Parser.NumberToken | json.c:183-194 | a numeral followed by `,`, `}`, `]` or the end is merged; otherwise `ok` is cleared |
| JsonParser.JsonParse | json.c:126-204 | the loop returns exactly `Parse(source)`, the pure token loop |
| JsonFacts.ScanFacts | json.c:47-97 | `scan_token` takes one character for each white-space or structural character (white space is never coalesced); a string's payload is exactly the characters between its quotes and contains no quote and no NUL; a numeral is exactly the `strtod` prefix; the end token appears exactly when no case applies; the behaviour is undefined exactly for an unterminated quote; a Boolean is never produced |
| JsonFacts.ScanAtEnd | json.c:82-96 | at the terminator `scan_token` gives the end token |
| JsonFacts.EmptyArrayIsNotOk | json.c:159-164 | `[]` parses to the empty array with `ok` false |
| JsonFacts.MismatchedCloseIsAccepted | json.c:146-165 | `[}` parses exactly as `[]` does: a bracket's kind is not checked against the open context |
| JsonFacts.ScanningContinuesAfterError | json.c:183-194 | in `1 2`, the first numeral clears `ok` and the loop goes on, so the second numeral becomes the result |
| JsonFacts.UnclosedArrayIsOk | json.c:136-203 | `[1` leaves the array open and returns `{.ok = true}`: an unclosed container is never flagged |
| JsonFacts.CloseWithoutContext | json.c:163-164 | `]` with no open context is undefined behaviour at offset 1 |
| JsonFacts.UnterminatedStringIsUndefined | json.c:68-71 | a quote with no closing quote is undefined behaviour |
| JsonFacts.OneMemberObject | json.c:142-194 | `{"a":1}` parses to an object whose table maps `a` to the numeral, and `get` finds it |
| JsonFacts.FirstMember | hashmap.h:92-125 | the first `set` into a new map succeeds, and `get` then returns the value |

## Left out

- The murmur hash (murmurhash.h) is not part of this model. It is a parameter of every map operation.
- Allocation is assumed to succeed. The model leaves out the NULL returns of `malloc`, `calloc` and `realloc`, and the early returns after them.
- Destructors and printing are left out: `hashmap_..._free`, `vector_..._free`, `hashmap_..._print`, `vector_..._print`, `json_print_r` and `json_print`. They are memory management and output.
- `main` and its fixed sample string are left out, as are the unused `JSONPTR` vector and the unused `WS_SIZE` macro.
- The double value `strtod` computes is left out, because it is floating point. A Number holds the numeral's text, and only the length `strtod` reads is modelled.
- The string copy in `scan_token` writes the terminator one byte past `malloc(len)`. The model keeps the string as a value and does not model that heap write.
- Values are immutable data. The C code shares containers through pointers: the top context and the value later merged into the parent point to the same map or vector. The model replaces the top context's element instead (`Vector.UpdateLast`). This has the same effect because a container is merged into its parent only after it is closed.
- Objects inside values are pure `Table`s, not `HashMap` objects. The class and the table functions are proved to agree (`HashMap.Set`, `HashMap.Get`).
- `match` returning -1 is modelled as None, which assumes a signed `char`. With an unsigned `char`, `next == -1` would never hold.
- The map's `size_t` arithmetic is unbounded in the model: `i * i` and `j * j` in the probe (hashmap.h:79, 102, 115) would wrap once the capacity passes 2^32, and `cap * 2` (hashmap.h:64) once it reaches 2^63. `HashTable.TableValid` does not bound the capacity. Capacities that large cannot be allocated.
- The `printf("[ERROR]...")` diagnostics of json.c (lines 121, 150, 170 and 187) are output and are left out. The state changes on those paths are modelled.
- `TOK_NONE` inside the switch is dead code, because the loop stops on that token. It is still modelled as clearing `ok`.
- `Vectors.Vector.At`: requires a non-empty vector. On an empty vector `v->len - 1` wraps to `SIZE_MAX`, so the C code returns `items[index]`: a zeroed or stale item inside the buffer for `index < cap`, and a read past the buffer for `index >= cap`. The branch for a negative index is unreachable for a `size_t`, and the parser never calls `at` on an empty stack.
- `Vectors.Vector.Push`: requires `len` below `SIZE_MAX`, the range of the `size_t` counter.
- `JsonParser.JsonParse`: requires the source length below `SIZE_MAX`, which holds for any C string. This bound keeps both stacks within `size_t`.
- `Numerals.NumeralLength`: its contract states only that the numeral lies within the string. Which characters `strtod` accepts is given by its definition and is not restated as a contract.
- `Json.Scan`: its own contract states only progress and bounds. The full description of each lexeme is `JsonFacts.ScanFacts`.
