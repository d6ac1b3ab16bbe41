# hlua: stack discipline and marshaling over the Lua 5.2 C API

hlua is a Rust binding to Lua 5.2. This project models its core, meaning the code that moves
values between Rust and Lua through the stack of a `lua_State`:

- **Values and reads.** Values are pushed (`Push`) and read back (`LuaRead`) for integers,
  floats, strings, booleans, `()`, tuples, `Vec`, slices, `HashMap`, `HashSet`,
  `AnyLuaValue` and `AnyHashableLuaValue`.
- **`PushGuard`.** It pops what a push left unless it is forgotten.
- **Table proxies.** `LuaTable` offers get, set, checked set, sub-tables, metatables and the
  registry. `LuaTableIterator` walks a table with `lua_next`.
- **Lua code and functions.** Lua code is loaded from a reader (`LuaCode`,
  `LuaCodeFromReader`). A `LuaFunction` is called with `lua_pcall`, and the status is mapped to
  a result or a `LuaError`.
- **Rust closures.** A Rust closure is pushed as a C closure whose upvalue boxes it. The
  `wrapper` that Lua calls reads the arguments, calls the closure and pushes its result.
- **Userdata.** Userdata is pushed with a `__typeid` metatable and read back by checking that
  id.
- **The `Lua` context.** It handles globals, `execute`, `empty_array` and closing the state
  on drop.

## How the model is built

**The interpreter state.** A Lua state is a pure value, `LuaApi.State`. It holds:

- a stack of `LuaVal`;
- a heap of tables, functions and userdata, addressed by id, each table with its entries in
  insertion order and an optional metatable;
- the registry and the globals table;
- the next free id.

**The C API functions.** Each C API function hlua calls is a function on `State` with a
contract, in module `LuaApi`:

- `lua_pushvalue`, `lua_settop`, `lua_insert`;
- `lua_newtable`, `lua_newuserdata`, `lua_pushcclosure`;
- `lua_gettable`, `lua_settable`, `lua_next`;
- `lua_getmetatable`, `lua_setmetatable`;
- `lua_tonumberx`, `lua_tointegerx`, `lua_tounsignedx`, `lua_tolstring`;
- `lua_getglobal`, `lua_setglobal`;
- `lua_load`, `lua_pcall`.

**What happens inside the interpreter is a parameter.** The model does not run Lua code. It
takes these as inputs:

- what `lua_load` answers (a `LoadVerdict`);
- what a `lua_pcall` returns or raises (a `CallOutcome`);
- the chunks a reader delivers (a `seq<ReadStep>`).

**Imperative parts.** The parts of hlua that change the stack step by step are classes over
`Stack.Interp`, an object whose field `st` is the current state:

- `PushGuard`, `LuaTable`, `LuaTableIterator`, `LuaFunction`, `ReadData`, the closure
  `Callback` and `Lua`;
- the push methods of `Marshal`.

Each method is proved against a specification function of `Pushes`, `Tables`, `Functions`,
`Context` or `UserdataRead`. The lemmas about those functions state what hlua promises.

**Numbers and their text.** Module `Numerals` models the two conversions Lua 5.2 makes
between numbers and strings, which the C sources of Lua carry out and hlua relies on:

- `lua_tolstring` writes a number with `"%.14g"` (`NumberText`): 14 significant digits,
  rounded half to even; fixed notation when the decimal exponent X of the rounded number is
  between -4 and 13, scientific notation (`1e+14`) otherwise; trailing zeros of the fraction
  and a bare point dropped; the exponent with a sign and at least two digits.
- `lua_tonumberx` reads a string (`ParseNumber`) as `luaO_str2d` does: a string with 'n' or
  'N' (an "inf" or a "nan") is refused; one with 'x' or 'X' is read as a hexadecimal numeral
  with an optional binary exponent, any other as a decimal numeral with an optional decimal
  exponent; white space may surround the numeral, and nothing else may follow it.

The main results are that the text of x reads back as x rounded to 14 digits
(`NumberTextReadsBack`), that this rounding errs by at most half a unit in the 14th digit
(`RoundedIsNearest`), and that whole numbers below 10^14 are written as their plain digits
(`NumberTextOfInt`).

**Rust values.** They are `Host.HostVal`, and the types a read asks for are `Host.HostTy`.
Integer types carry their width: values read through `lua_tointegerx` wrap to that width.

## Model

| member | source | states |
|---|---|---|
| LuaApi.UpvalueIndex | lua52-sys/src/lib.rs:246-248 | lua_upvalueindex(i) is a pseudo-index below LUA_REGISTRYINDEX for every i >= 1 |
| LuaApi.Pos | lua52-sys/src/lib.rs:128-130 | a valid stack index designates a slot of the stack, a negative one counted from the top |
| LuaApi.Slot | lua52-sys/src/lib.rs:143 | the value an index designates: the stack slot, nothing for 0, the registry table for LUA_REGISTRYINDEX |
| LuaApi.TypeAt | lua52-sys/src/lib.rs:143 | lua_type answers LUA_TNONE exactly for an index that designates no value |
| LuaApi.PushCopy | lua52-sys/src/lib.rs:130 | lua_pushvalue adds a copy of the designated value on top and keeps the rest of the stack |
| LuaApi.SetTop | lua52-sys/src/lib.rs:129 | lua_settop cuts the stack to the new height or fills it with nils, leaving the heap alone |
| LuaApi.Pop | lua52-sys/src/lib.rs:266-268 | lua_pop(n) removes exactly the n top slots |
| LuaApi.PopIsSetTop | lua52-sys/src/lib.rs:266-268 | lua_pop(n) is lua_settop(-n-1) |
| LuaApi.Insert | lua52-sys/src/lib.rs:132 | lua_insert moves the top value to the index and shifts the slots above it up by one |
| LuaApi.NewTable | lua52-sys/src/lib.rs:271-273 | lua_newtable pushes a fresh empty table without metatable |
| LuaApi.NewUserdata | lua52-sys/src/lib.rs:181 | lua_newuserdata pushes a fresh userdata block without metatable |
| LuaApi.PushCClosure | lua52-sys/src/lib.rs:169 | lua_pushcclosure pops its n upvalues and pushes a fresh C closure that holds them |
| LuaApi.GetTable | lua52-sys/src/lib.rs:175 | lua_gettable replaces the key on top with the table's value for it (nil when absent) |
| LuaApi.SetTable | lua52-sys/src/lib.rs:186 | lua_settable pops key and value and stores the pair in the table, keeping its metatable |
| LuaApi.Next | lua52-sys/src/lib.rs:207 | lua_next pops the key and pushes the following entry, or pushes nothing at the end |
| LuaApi.GetMetatable | lua52-sys/src/lib.rs:182 | lua_getmetatable pushes the metatable and answers true exactly when the value has one |
| LuaApi.SetMetatable | lua52-sys/src/lib.rs:191 | lua_setmetatable pops the table on top and makes it the metatable of the designated value |
| LuaApi.NumberOf | lua52-sys/src/lib.rs:146 | lua_tonumberx accepts numbers as they are and refuses nil, booleans, tables, functions and userdata |
| LuaApi.Trunc | lua52-sys/src/lib.rs:147 | the conversion of a number to an integer rounds toward zero |
| LuaApi.ToIntegerX | lua52-sys/src/lib.rs:147 | lua_tointegerx succeeds exactly when lua_tonumberx does and yields the truncated number |
| LuaApi.ToUnsignedX | lua52-sys/src/lib.rs:148 | lua_tounsignedx succeeds exactly when lua_tonumberx does and yields a value below 2^32 |
| LuaApi.IsBoolean | lua52-sys/src/lib.rs:307-309 | lua_isboolean holds exactly when the type is LUA_TBOOLEAN |
| LuaApi.IsNil | lua52-sys/src/lib.rs:302-304 | lua_isnil holds exactly when the type is LUA_TNIL |
| LuaApi.IsFunction | lua52-sys/src/lib.rs:287-289 | lua_isfunction holds exactly when the type is LUA_TFUNCTION |
| LuaApi.LStringOf | lua52-sys/src/lib.rs:150 | lua_tolstring gives the bytes of a string, the "%.14g" text of a number (Numerals.NumberText), and NULL for anything else |
| LuaApi.ToLString | lua52-sys/src/lib.rs:150 | lua_tolstring converts a number slot to a string in place and changes no other slot, the heap or the height |
| LuaApi.GetGlobal | lua52-sys/src/lib.rs:174 | lua_getglobal pushes the globals table's value under the name |
| LuaApi.SetGlobal | lua52-sys/src/lib.rs:185 | lua_setglobal pops the top value into the globals table under the name and changes no other table |
| LuaApi.Load | lua52-sys/src/lib.rs:197 | lua_load pushes one value: a fresh function when the status is LUA_OK, the error message otherwise |
| LuaApi.AfterCall | lua52-sys/src/lib.rs:256-258 | the heap once a call has run: the objects the call created or changed take their new values, every other object stays as it was, none is freed, and ids only grow |
| LuaApi.PCall | lua52-sys/src/lib.rs:256-258 | lua_pcall replaces the function and its arguments with one result or the error message, answers LUA_OK exactly when the call returned, and leaves the heap as the call left it |
| Base.UpToNul | hlua/src/values.rs:155 | what CStr::from_ptr sees: the longest NUL-free prefix of the bytes |
| Base.UpToNulFree | hlua/src/values.rs:155 | bytes without NUL are read in full |
| Base.AsciiIsUtf8 | hlua/src/values.rs:156 | ASCII text is valid UTF-8 |
| Numerals.DigitsRoundTrip | lua52-sys/src/lib.rs:150 | the decimal digits of a natural number denote that number |
| Numerals.DigitsOfValue | lua52-sys/src/lib.rs:150 | a string of digits without a leading zero is the text of the number it denotes |
| Numerals.Decade | lua52-sys/src/lib.rs:150 | the decimal exponent X of a positive number: 10^X <= y < 10^(X+1) |
| Numerals.DecadeIs | lua52-sys/src/lib.rs:150 | that exponent is the only one: any x with 10^x <= y < 10^(x+1) is it |
| Numerals.RoundHalfEven | lua52-sys/src/lib.rs:150 | rounding to an integer errs by at most 1/2 and keeps integers |
| Numerals.Significand | lua52-sys/src/lib.rs:150 | the 14 significant digits of a positive number form an integer from 10^13 to 10^14 - 1 |
| Numerals.SignificandNear | lua52-sys/src/lib.rs:150 | the 14 digits, at their decade, differ from the number by at most half a unit in the 14th digit |
| Numerals.RoundedIsNearest | lua52-sys/src/lib.rs:150 | the number "%.14g" denotes is within half a unit in the 14th significant digit of the number written |
| Numerals.Layout | lua52-sys/src/lib.rs:150 | "%.14g" uses fixed notation exactly for decimal exponents from -4 to 13 and one digit before the point otherwise, and the laid out digits keep the significand's value |
| Numerals.NumberTextAscii | lua52-sys/src/lib.rs:150 | the text of a number is ASCII |
| Numerals.ExponentTextReads | lua52-sys/src/lib.rs:146-150 | the exponent printf writes reads back as the same exponent |
| Numerals.ReadsDecimal | lua52-sys/src/lib.rs:146 | digits, an optional point with fraction digits and an optional exponent read as their value |
| Numerals.ReadsSigned | lua52-sys/src/lib.rs:146 | a numeral after an optional minus sign reads as its value, negated after the sign |
| Numerals.SignificandTextReads | lua52-sys/src/lib.rs:146-150 | the text of 14 digits at a decade, in either notation, reads as their value |
| Numerals.NumberTextReadsBack | lua52-sys/src/lib.rs:146-150 | the text lua_tolstring writes for x reads back with lua_tonumberx as x rounded to 14 significant digits |
| Numerals.NumberTextOfInt | lua52-sys/src/lib.rs:150 | a whole number with at most 14 digits is written as its digits, after a minus sign when negative |
| Numerals.WholeNumbersExact | lua52-sys/src/lib.rs:146-150 | whole numbers with at most 14 digits survive the conversion to text and back unchanged |
| Numerals.LargePowerText | lua52-sys/src/lib.rs:150 | from 10^14 on "%.14g" switches to scientific notation: 10^k is written "1e+k" |
| Numerals.ParseIntText | lua52-sys/src/lib.rs:146 | the digits of any integer, however large, read back as that integer |
| Numerals.HexadecimalString | lua52-sys/src/lib.rs:146 | a string without NUL, 'n' or 'N' that holds an 'x' is read as a hexadecimal numeral |
| Numerals.HexNumeralReads | lua52-sys/src/lib.rs:146 | "0x10" reads as 16 |
| Numerals.BinaryExponentReads | lua52-sys/src/lib.rs:146 | " 0x1p4 " reads as 16: a binary exponent, and white space around the numeral |
| Numerals.DecimalExponentReads | lua52-sys/src/lib.rs:146 | "1e2" reads as 100 |
| Numerals.DanglingExponentRefused | lua52-sys/src/lib.rs:146 | "1e" is refused: an 'e' without digits is left over |
| Numerals.InfinityRefused | lua52-sys/src/lib.rs:146 | "inf" is refused |
| Numerals.ParseRejectsLetters | hlua/src/values.rs:33-41 | "aaa" is no numeral |
| Values.TypeOf | lua52-sys/src/lib.rs:143 | each kind of value has its own LUA_T* constant |
| Values.KeyIndex | lua52-sys/src/lib.rs:175 | a table lookup finds the first entry with the key, or reports its absence |
| Values.StoreWf | lua52-sys/src/lib.rs:186 | storing under a non-nil key keeps the keys of a table distinct and non-nil |
| Values.StoreFresh | lua52-sys/src/lib.rs:186 | storing a new key appends the entry |
| Values.StoreLookup | lua52-sys/src/lib.rs:175-186 | after storing v under k, k yields v and every other key yields what it did before |
| Values.Keys | lua52-sys/src/lib.rs:207 | the keys of a table in traversal order |
| Values.NextVisits | lua52-sys/src/lib.rs:207 | lua_next after the i-th key yields the (i+1)-th entry, and the end after the last one |
| Host.Wrap | hlua/src/values.rs:33-41 | a read integer is cast to the Rust type and always fits its width |
| Host.WrapInRange | hlua/src/values.rs:33-41 | an integer that fits the width is unchanged by the cast |
| Host.Callback.constructor | hlua/src/functions_write.rs:19-38 | functionN wraps a closure of N parameters with its captured state |
| Host.Callback.CallMut | hlua/src/functions_write.rs:251-259 | call_mut runs the closure once on the components of the argument value and keeps its new captured state |
| Host.Components | hlua/src/functions_write.rs:251-259 | a closure of no parameter gets none, of one parameter the value itself, of more the tuple's parts |
| Stack.Interp.constructor | hlua/src/lib.rs:172-211 | an open interpreter over the given state |
| Stack.PushGuard.constructor | hlua/src/lib.rs:40-43 | a guard over the given number of slots |
| Stack.PushGuard.Forget | hlua/src/lib.rs:48-52 | forget returns the size and leaves a guard that pops nothing |
| Stack.PushGuard.Drop | hlua/src/lib.rs:290-296 | dropping a guard pops exactly its size, and a guard of size 0 leaves the state alone |
| Stack.PopNothing | hlua/src/lib.rs:293 | a pop of 0 slots changes nothing |
| Stack.DropRestores | hlua/src/lib.rs:290-296 | dropping the guard of a push of n slots gives back the stack from before the push |
| Reads.IntOf | hlua/src/values.rs:33-41 | an integer read succeeds exactly where lua_tonumberx does, and its value fits the width |
| Reads.BoolOf | hlua/src/values.rs:214-220 | a bool read succeeds exactly on a boolean, and yields it |
| Reads.TextOf | hlua/src/values.rs:148-159 | a String read succeeds exactly on a string or number whose bytes are UTF-8, and yields those bytes (the corrected read, see Findings) |
| Reads.TextOfAsWritten | hlua/src/values.rs:148-159 | the String read as written: refused without lua_tolstring text, and otherwise the text cut at the first NUL |
| Reads.AsWrittenPanicsOnBadUtf8 | hlua/src/values.rs:156 | the written read panics on bytes FF FE FF FE, which the corrected read refuses |
| Reads.AsWrittenTruncatesAtNul | hlua/src/values.rs:155 | the written read turns "a\0b" into "a", where the corrected read keeps all three bytes |
| Reads.AsWrittenAgreesOnCleanText | hlua/src/values.rs:148-159 | on UTF-8 text without NUL the written and the corrected read agree |
| Reads.AnyByType | hlua/src/any.rs:104-164 | AnyLuaValue reads a string as LuaString or LuaAnyString by its UTF-8 validity, a number as LuaNumber, a boolean as LuaBoolean, nil as LuaNil, functions and userdata as LuaOther |
| Reads.StringSlotStaysString | hlua/src/any.rs:104-126 | a string slot is never read as a number by AnyLuaValue or AnyHashableLuaValue |
| Reads.MinusTwoStaysString | hlua/src/any.rs:360-376 | the string "-2" reads as LuaString("-2"), not as a number |
| Reads.BadUtf8IsAnyString | hlua/src/any.rs:630-641 | the bytes FF FE FF FE read as LuaAnyString |
| Reads.HashableInteger | hlua/src/any.rs:224-250 | AnyHashableLuaValue reads an integral number as that integer |
| Reads.HashableExamples | hlua/src/any.rs:342-358 | -2 and 4 read as hashable integers and "4" as a hashable string |
| Reads.AnyPairs | hlua/src/any.rs:128-160 | a table read as AnyLuaValue has one pair per entry |
| Reads.AnyPairsAt | hlua/src/any.rs:128-160 | the j-th pair of a read table is the read of the j-th entry's key and value |
| Reads.AnyTable | hlua/src/any.rs:128-160 | a table reads as LuaArray with one pair per entry, each read inside the table |
| Reads.HashablePairs | hlua/src/any.rs:252-280 | a table read as AnyHashableLuaValue has one pair per entry |
| Reads.ReadAt | hlua/src/lib.rs:140-145 | a read at an index changes no height, heap or environment, and converts at most number slots |
| Reads.ReadParts | hlua/src/tuples.rs:80-101 | a tuple read yields one value per component, read from consecutive indices |
| Reads.ReadPartsFails | hlua/src/tuples.rs:80-101 | a tuple read fails when a component fails, and its first value is the first component's read |
| Reads.UnitReadsAnywhere | hlua/src/values.rs:244-246 | () reads successfully at every index |
| Reads.NumberReadsAsText | hlua/src/values.rs:148-159 | a number reads as its "%.14g" text, and its slot becomes that string |
| Reads.IntReadsAsText | hlua/src/values.rs:148-159 | a whole number with at most 14 digits reads as its plain digits |
| Reads.IntOfWhole | hlua/src/values.rs:33-41 | a whole number in the type's range survives the `val as $t` cast unchanged, so a slot converting to it reads as that integer |
| Reads.TextReadsAsInt | hlua/src/values.rs:33-41 | the decimal text of an integer that fits reads as that integer |
| Reads.LettersDoNotReadAsInt | hlua/src/values.rs:33-41 | "aaa" does not read as an integer |
| Reads.BoolReadNeedsBoolean | hlua/src/values.rs:214-220 | no value other than a boolean reads as bool |
| Reads.ReadKeeps | hlua/src/lib.rs:140-145 | a read through types that do not convert to text leaves the state unchanged |
| Reads.OneSlotRead | hlua/src/lib.rs:140-145 | a one-slot read changes at most the slot it reads |
| Reads.IntegralNumberReads | hlua/src/values.rs:33-41 | an integral number that fits the width reads as itself and changes nothing |
| Reads.ReadTopThenPop | hlua/src/lib.rs:290-296 | reading the top slot and then popping it leaves what popping alone leaves |
| Reads.ReadSameSlot | hlua/src/lib.rs:140-145 | two slots holding the same value over the same heap read alike |
| Pushes.StoreAt | hlua/src/rust_tables.rs:24-29 | storing one pushed element pops it into the table under its 1-based index |
| Pushes.StorePair | hlua/src/rust_tables.rs:30 | storing two pushed slots as key and value, refused when the key is nil |
| Pushes.PushSpec | hlua/src/values.rs:18-25 | a push that succeeds only grows the stack by its count, a failed push leaves the stack as it was, and infallible types never fail |
| Pushes.PushObject | hlua/src/rust_tables.rs:11-41 | a Vec, map or set push leaves one fresh table on top, a userdata push one fresh userdata |
| Pushes.OneOrPanic | hlua/src/rust_tables.rs:11-41 | a push of one object reports Pushed(1), or a panic |
| Pushes.GrownThen | hlua/src/tuples.rs:42-72 | two pushes in a row grow the stack by the sum of their counts |
| Pushes.SeqFold | hlua/src/rust_tables.rs:17-33 | the loop over a Vec's elements keeps the table on top and the stack below it |
| Pushes.StoreSlots | hlua/src/rust_tables.rs:20-32 | an element of 0 or 1 slot is stored under its index and one of 2 slots as key/value; any other count, or a nil key, is refused |
| Pushes.DictFold | hlua/src/rust_tables.rs:52-62 | the loop over a map's entries keeps the table on top and the stack below it |
| Pushes.PairSlots | hlua/src/rust_tables.rs:55-61 | a key and value pushed as two slots are stored, refused when the key is nil |
| Pushes.SetFold | hlua/src/rust_tables.rs:103-112 | the loop over a set's members keeps the table on top and the stack below it |
| Pushes.MemberSlots | hlua/src/rust_tables.rs:103-112 | a set member pushed as one non-nil slot is stored with the value true |
| Pushes.PartsFrom | hlua/src/tuples.rs:42-72 | a tuple pushes its parts in order, and a failure leaves the stack as it was (corrected, see Findings) |
| Pushes.AnyPush | hlua/src/any.rs:56-94 | an AnyLuaValue push leaves one slot, panics on LuaOther and always succeeds on scalars |
| Pushes.AnyArrayFold | hlua/src/any.rs:63-81 | the loop over a LuaArray's pairs keeps the table on top |
| Pushes.HashPush | hlua/src/any.rs:174-214 | an AnyHashableLuaValue push leaves one slot, panics on LuaOther and always succeeds on scalars |
| Pushes.HashArrayFold | hlua/src/any.rs:181-199 | the loop over a hashable LuaArray's pairs keeps the table on top |
| Pushes.PushFunction | hlua/src/functions_write.rs:271-304 | a closure push leaves on top a C closure of the wrapper whose upvalue is a userdata boxing the closure |
| Pushes.BoxedHeap | hlua/src/functions_write.rs:273-298 | the boxed closure's metatable calls the closure destructor under "__gc" |
| Pushes.LoadResultOf | hlua/src/lua_functions.rs:145-166 | a reader error is a ReadError, LUA_OK is success, LUA_ERRSYNTAX is a SyntaxError with the message, and LUA_ERRMEM a panic |
| Pushes.LoadThrough | hlua/src/lua_functions.rs:89-169 | a loaded chunk adds one function on top, and a load error leaves the stack as it was |
| Pushes.PushCode | hlua/src/lua_functions.rs:45-56 | LuaCode pushes one function, or fails with the stack as it was |
| Pushes.PushUserdata | hlua/src/userdata.rs:45-92 | push_userdata leaves exactly the fresh userdata on top of the stack |
| Pushes.Attach | hlua/src/userdata.rs:88 | lua_setmetatable(-2) makes the table the userdata's metatable and pops it |
| Pushes.BareUserdataMetatable | hlua/src/userdata.rs:45-92 | a userdata without extra entries gets a metatable holding "__typeid" and "__gc" |
| Pushes.TypedBoxShape | hlua/src/userdata.rs:49-79 | the box and its metatable are fresh, with the type id and the destructor in it |
| Pushes.MetaFold | hlua/src/userdata.rs:81-86 | the caller's metatable entries are stored in order, with the table kept on top |
| Pushes.MetaSlots | hlua/src/userdata.rs:81-86 | a metatable entry is stored when its value is one non-nil slot |
| PushFacts.PushCount | hlua/src/values.rs:18-25 | a successful push reports the number of slots of its type |
| PushFacts.ScalarVal | hlua/src/values.rs:21-246 | the Lua value a scalar pushes, never nil |
| PushFacts.ScalarPush | hlua/src/values.rs:21-202 | a scalar push is lua_push* of its value, one slot |
| PushFacts.PushThenRead | hlua/src/values.rs:21-220 | a scalar pushed and read back through its own type is itself |
| PushFacts.UnitRoundTrip | hlua/src/values.rs:229-246 | () pushes nothing and reads back anywhere |
| PushFacts.Indexed | hlua/src/rust_tables.rs:11-41 | the table a Vec builds has integer keys no greater than the index reached |
| PushFacts.IndexedLookup | hlua/src/rust_tables.rs:72-80 | in a pushed Vec, index i yields element i (1-based), and nil past the end or for () |
| PushFacts.SeqFoldEntries | hlua/src/rust_tables.rs:17-33 | the element loop fills the table with every element under its index |
| PushFacts.ObjectPush | hlua/src/rust_tables.rs:72-112 | Vec, HashMap and HashSet pushes are a fresh table filled by their loop |
| PushFacts.VecPush | hlua/src/rust_tables.rs:72-90 | a Vec of scalars pushes one fresh table holding element i under i |
| PushFacts.Assoc | hlua/src/rust_tables.rs:92-101 | the entries a map builds, one per map entry in order |
| PushFacts.PairStepPlain | hlua/src/rust_tables.rs:55-59 | a scalar key/value pair is stored as that pair |
| PushFacts.DictFoldEntries | hlua/src/rust_tables.rs:52-62 | the entry loop fills the table with every map entry |
| PushFacts.DictPush | hlua/src/rust_tables.rs:92-101 | a HashMap pushes one fresh table where every key yields its value |
| PushFacts.Members | hlua/src/rust_tables.rs:103-112 | the entries a set builds, each member mapped to true |
| PushFacts.SetFoldEntries | hlua/src/rust_tables.rs:103-112 | the member loop fills the table with every member |
| PushFacts.SetPush | hlua/src/rust_tables.rs:103-112 | a HashSet pushes one fresh table where every member yields true |
| PushFacts.PartsFromAsWritten | hlua/src/tuples.rs:42-72 | the tuple push as written: on a failure after the first part, the first part's slots stay on the stack |
| PushFacts.AsWrittenSameOutcome | hlua/src/tuples.rs:42-72 | the written and the corrected tuple push report the same outcome, and leave the same state unless the push fails |
| PushFacts.TupleLeak | hlua/src/tuples.rs:56-64 | (1, code with a syntax error) fails; as written the 1 stays on the stack, while the corrected push leaves the stack as it was |
| Marshal.PushValue | hlua/src/values.rs:18-25 | pushing any value on the interpreter does what PushSpec says |
| Marshal.PushNestedValue | hlua/src/tuples.rs:41-66 | pushing a compound value on the interpreter does what PushNested says |
| Marshal.PushParts | hlua/src/tuples.rs:42-72 | the tuple push on the interpreter follows PartsFrom |
| Marshal.PushClosure | hlua/src/functions_write.rs:271-304 | the closure push on the interpreter leaves PushFunction's state |
| Marshal.PushCodeValue | hlua/src/lua_functions.rs:45-56 | the LuaCode push on the interpreter follows PushCode |
| Marshal.LoadFrom | hlua/src/lua_functions.rs:89-169 | loading through the reader on the interpreter follows LoadThrough |
| Marshal.PushIter | hlua/src/rust_tables.rs:11-41 | push_iter on the interpreter builds the table PushObject specifies |
| Marshal.PushElement | hlua/src/rust_tables.rs:19-33 | one round of push_iter's loop is one step of SeqFold |
| Marshal.StoreElement | hlua/src/rust_tables.rs:20-32 | an element is pushed and stored as StoreSlots says, the stack kept |
| Marshal.SetPair | hlua/src/rust_tables.rs:30 | the 2-slot case calls lua_settable(-3) only on a non-nil key |
| Marshal.PushDict | hlua/src/rust_tables.rs:44-70 | push_rec_iter on the interpreter builds the table PushObject specifies |
| Marshal.PushPair | hlua/src/rust_tables.rs:54-61 | one round of push_rec_iter's loop is one step of DictFold |
| Marshal.PushSet | hlua/src/rust_tables.rs:103-112 | the HashSet push on the interpreter builds the table PushObject specifies |
| Marshal.PushMember | hlua/src/rust_tables.rs:103-112 | one member stored on the interpreter is one step of SetFold |
| Marshal.PushAny | hlua/src/any.rs:56-94 | the AnyLuaValue push on the interpreter follows AnyPush |
| Marshal.PushAnyArray | hlua/src/any.rs:63-81 | a LuaArray push on the interpreter is a fresh table filled by AnyArrayFold |
| Marshal.PushAnyPair | hlua/src/any.rs:72-74 | one pair stored on the interpreter is one step of AnyArrayFold |
| Marshal.PushHashable | hlua/src/any.rs:174-214 | the AnyHashableLuaValue push on the interpreter follows HashPush |
| Marshal.PushHashableArray | hlua/src/any.rs:181-199 | a hashable LuaArray push on the interpreter is a fresh table filled by HashArrayFold |
| Marshal.PushHashablePair | hlua/src/any.rs:190-192 | one hashable pair stored on the interpreter is one step of HashArrayFold |
| Marshal.PushUserdataValue | hlua/src/userdata.rs:45-92 | push_userdata on the interpreter follows PushObject |
| Marshal.NewTypedBox | hlua/src/userdata.rs:49-79 | the box, its metatable, "__typeid" and "__gc" as TypedBox describes |
| Marshal.FillMetatable | hlua/src/userdata.rs:81-86 | the caller's metatable entries are stored as MetaFold says |
| Marshal.SetMetaEntry | hlua/src/userdata.rs:81-86 | one caller entry stored on the interpreter is one step of MetaFold |
| Tables.OffsetTracks | hlua/src/lua_tables.rs:44-55 | after n more pushes, offset(-n) still designates the table |
| Tables.Fetch | hlua/src/lua_tables.rs:149-179 | pushing the key and lua_gettable adds one slot |
| Tables.FetchPlain | hlua/src/lua_tables.rs:149-179 | for a scalar key the added slot is the table's value for it |
| Tables.GetSpec | hlua/src/lua_tables.rs:149-179 | get leaves the height as it was and, for types that do not convert, the stack unchanged |
| Tables.GetFetched | hlua/src/lua_tables.rs:166-177 | after lua_gettable, get never panics, pops the fetched slot, and for types that do not convert leaves the stack below it as it was |
| Tables.GetMissing | hlua/src/lua_tables.rs:149-179 | get of an absent key is None and leaves the state as it was |
| Tables.GetPlain | hlua/src/lua_tables.rs:149-179 | get of a key holding a scalar yields that scalar |
| Tables.CheckedSetSpec | hlua/src/lua_tables.rs:239-276 | checked_set keeps the stack, and infallible keys and values never give a push error |
| Tables.SetAboveKey | hlua/src/lua_tables.rs:262-274 | once the key is pushed, the rest of checked_set keeps the stack, reports no key error, and an infallible value reports no value error |
| Tables.SetPlain | hlua/src/lua_tables.rs:239-276 | checked_set of scalars is lua_settable at offset(-2) above the pushed key and value |
| Tables.SetThenGet | hlua/src/lua_tables.rs:220-276 | after set(k, v), get(k) yields v, every other key is unchanged, and the stack is as it was |
| Tables.StoreEmptyArray | hlua/src/lua_tables.rs:286-301 | storing a fresh table under the key keeps the stack and the proxy's table |
| Tables.SubtableSpec | hlua/src/lua_tables.rs:149-179 | fetching a table value leaves it on top, one slot more |
| Tables.EmptyArraySpec | hlua/src/lua_tables.rs:280-305 | empty_array leaves a table on top, one slot more |
| Tables.EmptyVecPush | hlua/src/lua_tables.rs:296-299 | an empty Vec pushes a fresh empty table |
| Tables.EmptyArrayPlain | hlua/src/lua_tables.rs:280-305 | empty_array stores a fresh empty table under the key and leaves it on top |
| Tables.SubtablePlain | hlua/src/lua_tables.rs:149-179 | fetching a key that holds table n pushes table n |
| Tables.StoreEmptyPlain | hlua/src/lua_tables.rs:286-301 | the stored table is fresh and empty and the key yields it |
| Tables.MetatableSpec | hlua/src/lua_tables.rs:355-376 | get_or_create_metatable leaves the table's metatable on top, the existing one when there is one |
| Tables.CreateMetatable | hlua/src/lua_tables.rs:358-363 | a table without a metatable gets a fresh table as its metatable, pushed one slot above |
| Tables.CreatedMetatable | hlua/src/lua_tables.rs:355-376 | without a metatable, a fresh empty table becomes the metatable |
| Tables.LuaTable.constructor | hlua/src/lua_tables.rs:77-92 | a proxy over the table at an index |
| Tables.LuaTable.FetchKey | hlua/src/lua_tables.rs:161-164 | the key pushed and looked up on the interpreter, as Fetch says |
| Tables.LuaTable.Get | hlua/src/lua_tables.rs:149-179 | get on the interpreter follows GetSpec |
| Tables.LuaTable.ReadAndPop | hlua/src/lua_tables.rs:166-177 | the guarded read and pop after lua_gettable follows GetFetched |
| Tables.LuaTable.IntoGet | hlua/src/lua_tables.rs:184-208 | into_get yields the value, or keeps the fetched slot under a guard of one slot |
| Tables.LuaTable.KeepUnlessRead | hlua/src/lua_tables.rs:195-206 | after lua_gettable, into_get reads and pops the value, or keeps the slot under a guard of one slot when it is nil or does not read |
| Tables.LuaTable.CheckedSet | hlua/src/lua_tables.rs:239-276 | checked_set on the interpreter follows CheckedSetSpec |
| Tables.LuaTable.StoreAboveKey | hlua/src/lua_tables.rs:262-274 | the value push and the store on the interpreter follow SetAboveKey |
| Tables.LuaTable.StoreKeyValue | hlua/src/lua_tables.rs:272-273 | lua_settable at offset(-2) stores the pair and pops both slots, and a nil key is a panic |
| Tables.LuaTable.Set | hlua/src/lua_tables.rs:220-231 | set succeeds exactly when checked_set does |
| Tables.LuaTable.GetSubtable | hlua/src/lua_tables.rs:149-179 | a table value is returned as a proxy at -1 under a guard of one slot |
| Tables.LuaTable.StoreEmpty | hlua/src/lua_tables.rs:286-301 | the empty table is stored and the proxy stays valid |
| Tables.LuaTable.EmptyArray | hlua/src/lua_tables.rs:280-305 | empty_array on the interpreter returns a proxy at -1 under a guard of one slot |
| Tables.LuaTable.GetOrCreateMetatable | hlua/src/lua_tables.rs:355-376 | the metatable proxy at -1 under a guard of one slot |
| Tables.LuaTable.Iter | hlua/src/lua_tables.rs:109-121 | iter pushes nil as the first key and starts an unfinished iterator |
| Tables.ReadTable | hlua/src/lua_tables.rs:77-92 | LuaRead for LuaTable succeeds exactly on a table |
| Tables.Registry | hlua/src/lua_tables.rs:395-400 | the registry proxy designates the registry table |
| Tables.Advance | hlua/src/lua_tables.rs:464-467 | lua_next at offset(-1): the following entry, the end, or a panic on a key the table lacks |
| Tables.Pair | hlua/src/lua_tables.rs:477-481 | an item exists exactly when both key and value read |
| Tables.ReadEntry | hlua/src/lua_tables.rs:470-475 | reading an entry leaves one slot less and touches no non-number slot |
| Tables.StepKeepsWalking | hlua/src/lua_tables.rs:455-483 | after an item the key is back on top over the same table |
| Tables.StepVisits | hlua/src/lua_tables.rs:455-483 | the step after the i-th key yields the (i+1)-th entry as read, and the end after the last |
| Tables.AdvanceVisits | hlua/src/lua_tables.rs:464-467 | lua_next after the i-th key pushes the (i+1)-th entry |
| Tables.ReadEntryAgrees | hlua/src/lua_tables.rs:470-475 | for key types that do not convert, the written and the corrected entry read agree |
| Tables.StepAgrees | hlua/src/lua_tables.rs:455-483 | for key types that do not convert, the written and the corrected step agree |
| Tables.ForeignKeyPanics | hlua/src/lua_tables.rs:464 | a key the table does not hold makes lua_next fail |
| Tables.FirstTextKeyStep | hlua/src/lua_tables.rs:471 | reading number key 1 as a String leaves the string "1" in the key slot |
| Tables.NumberKeyReadInPlace | hlua/src/lua_tables.rs:471 | the key read converts the key slot itself |
| Tables.TextKeyBreaksTraversal | hlua/src/lua_tables.rs:471 | as written the second step over {1=9, 2=8} with String keys fails, while the corrected step yields an item |
| Tables.SecondTextKeyStep | hlua/src/lua_tables.rs:469-471 | with "1" left in the key slot, the next lua_next raises an error |
| Tables.CopiedKeyStep | hlua/src/lua_tables.rs:469-471 | with the key 1 kept in its slot, the next step yields an item |
| Tables.LuaTableIterator.constructor | hlua/src/lua_tables.rs:109-121 | an unfinished iterator with its key on top |
| Tables.LuaTableIterator.Next | hlua/src/lua_tables.rs:455-483 | next follows Step, and once finished yields nothing and changes nothing |
| Tables.LuaTableIterator.Drop | hlua/src/lua_tables.rs:486-495 | dropping an unfinished iterator pops its key, giving back the stack from before iter |
| Tables.Items | hlua/src/lua_tables.rs:455-483 | the first n items an iteration yields |
| Tables.NextEntry | hlua/src/lua_tables.rs:455-483 | the i-th call of next yields the i-th entry and moves the key on |
| Tables.CollectNext | hlua/src/lua_tables.rs:455-483 | one more call of next appends the next entry's item, or finishes after the last and pops the key |
| Tables.Collect | hlua/src/lua_tables.rs:109-121 | iterating to the end yields every entry once, in traversal order, and leaves the state as it was |
| Functions.Conclude | hlua/src/lua_functions.rs:277-300 | the end of a call pops lua_pcall's one slot unless it panics |
| Functions.Invoke | hlua/src/lua_functions.rs:277 | lua_pcall and the end of the call consume the function and its arguments |
| Functions.CallSpec | hlua/src/lua_functions.rs:230-238 | call leaves the stack height as it was and the heap as the called function left it, unless it panics |
| Functions.ArgsFrame | hlua/src/lua_functions.rs:270-275 | the copy of the function and the pushed arguments, or the copy alone when the push fails |
| Functions.CallIsCallWithUnit | hlua/src/lua_functions.rs:230-238 | call is call_with_args(()), for the written and the corrected version |
| Functions.CalledCopy | hlua/src/lua_functions.rs:270-277 | lua_pcall on the copy leaves the function and its one result |
| Functions.CallStatusMapping | hlua/src/lua_functions.rs:289-300 | status 0 reads the result (WrongType when it does not read), LUA_ERRRUN yields ExecutionError with the message, and any other status panics |
| Functions.ReturnedNumberIsWrongType | hlua/src/lua_functions.rs:290-292 | 12 returned to a call asking for a bool is WrongType |
| Functions.CallKeepsFunction | hlua/src/lua_functions.rs:264-302 | a call that does not panic leaves the stack as it was, with the function still on top |
| Functions.ConcludePopsResult | hlua/src/lua_functions.rs:279-287 | the guard of one slot pops the result |
| Functions.ArgumentsInOrder | hlua/src/lua_functions.rs:270-275 | the arguments (a, b) sit above the copy in that order |
| Functions.PushErrorBeforeCall | hlua/src/lua_functions.rs:272-274 | an argument push error is returned before any call, whatever the function would do |
| Functions.FailedArgumentsLeakCopy | hlua/src/lua_functions.rs:273 | as written a failed argument push leaves the copy of the function on the stack, and the corrected call removes it |
| Functions.LuaFunction.constructor | hlua/src/lua_functions.rs:423-434 | a proxy for the function on top |
| Functions.LuaFunction.Call | hlua/src/lua_functions.rs:230-238 | call on the interpreter follows CallSpec |
| Functions.LuaFunction.CallWithArgs | hlua/src/lua_functions.rs:264-302 | call_with_args on the interpreter follows CallWithArgsSpec |
| Functions.LuaFunction.CallPushed | hlua/src/lua_functions.rs:273-301 | with the arguments pushed, their guard forgotten and lua_pcall run, the call follows Invoke |
| Functions.Finish | hlua/src/lua_functions.rs:279-300 | the guard over the result and the status mapping on the interpreter follow Conclude |
| Functions.ReadFunction | hlua/src/lua_functions.rs:423-434 | LuaRead for LuaFunction panics unless the index is -1, and accepts exactly a function on top |
| Functions.LoadedChunkIsFunction | hlua/src/lua_functions.rs:321-334 | a loaded chunk reads as a LuaFunction |
| Functions.Wrapper | hlua/src/functions_write.rs:391-432 | the wrapper on the interpreter follows WrapperSpec and updates the closure's captured state |
| Functions.BadArgumentsSkipClosure | hlua/src/functions_write.rs:411-422 | arguments that do not read raise "wrong parameter types for callback function" without running the closure |
| Functions.AddRejectsText | hlua/src/functions_write.rs:484-497 | add(3, "aaa") raises the wrong-parameter error |
| Functions.ArgumentsBindInOrder | hlua/src/functions_write.rs:405-409 | argument i binds to parameter i |
| Functions.ReadTwoInts | hlua/src/functions_write.rs:408-409 | (a, b) is read from -2 as two i32 |
| Functions.ReadTwoParts | hlua/src/tuples.rs:80-101 | a pair is read from consecutive slots |
| Functions.ResultCount | hlua/src/functions_write.rs:426-431 | the wrapper returns the number of values it pushed above the arguments |
| Functions.ErrorResultIsNilAndMessage | hlua/src/functions_write.rs:370-379 | a closure returning Err(m) yields nil and m, two values |
| Functions.PushedClosureCallsBack | hlua/src/functions_write.rs:300-302 | the pushed closure is a C closure of the wrapper, and calling it opens a wrapper frame for that closure |
| Functions.CallFromLua | hlua/src/functions_write.rs:552-565 | Lua calling a closure without parameters n times applies its body each time |
| Functions.IncrementsAccumulate | hlua/src/functions_write.rs:552-565 | n calls of a closure that adds one add n to its captured state |
| Functions.FifteenIncrementsFromFive | hlua/src/functions_write.rs:552-565 | a = 5 incremented by 15 calls is 20 |
| UserdataRead.ProbeTop | hlua/src/userdata.rs:97-115 | the checks of read_userdata; a tag comparison leaves the metatable and the tag above the value |
| UserdataRead.RefusedEarly | hlua/src/userdata.rs:97-109 | an index other than -1 panics, and no userdata or no metatable is None with the stack left alone |
| UserdataRead.ProbeLooksUpTag | hlua/src/userdata.rs:111-112 | "__typeid" is looked up in the metatable |
| UserdataRead.AcceptsIffTagMatches | hlua/src/userdata.rs:94-123 | a userdata is accepted exactly when its "__typeid" reads as the expected id, and then stays on top with the stack as it was |
| UserdataRead.TagRead | hlua/src/userdata.rs:111-116 | the "__typeid" entry on top reads as the expected id exactly when the tag does, and popping the metatable and the entry restores the stack |
| UserdataRead.TaggedUserdataReadsBack | hlua/src/userdata.rs:94-123 | a userdata tagged with the id is accepted by a read of that type and refused by others |
| UserdataRead.PushedBareUserdata | hlua/src/userdata.rs:45-92 | a pushed userdata is on top with a metatable holding its type id |
| UserdataRead.PushedUserdataReadsBack | hlua/src/userdata.rs:45-123 | what push_userdata leaves reads back as the same type and no other |
| UserdataRead.AsWrittenLosesUserdata | hlua/src/userdata.rs:116 | as written, lua_pop(-2) leaves only the bottom slot and the result designates it |
| UserdataRead.PushedUserdataLostAsWritten | hlua/src/userdata.rs:116 | over a non-empty stack, the written read of a pushed userdata yields the bottom slot instead |
| UserdataRead.ReadUserdataOn | hlua/src/userdata.rs:94-123 | read_userdata on the interpreter follows ReadUserdata |
| ChunkReader.Step | hlua/src/lua_functions.rs:103-128 | one reader call gives at most 128 bytes, an empty chunk once an error is recorded, and consumes its input |
| ChunkReader.ReadAll | hlua/src/lua_functions.rs:103-128 | what lua_load collects from the reader, and nothing after an error |
| ChunkReader.ReadData.constructor | hlua/src/lua_functions.rs:91-101 | a reader over the source without a recorded error |
| ChunkReader.ReadData.Callback | hlua/src/lua_functions.rs:103-128 | one reader call follows Step, and does nothing once an error is recorded |
| ChunkReader.LoadChunk | hlua/src/lua_functions.rs:130-135 | lua_load's reading loop collects what ReadAll says |
| ChunkReader.CursorDeliversCode | hlua/src/functions_read.rs:29-47 | a cursor over code delivers the code, with no error |
| ChunkReader.FailingReaderReportsError | hlua/src/lua_functions.rs:118-124 | a reader that fails at once yields nothing and the error |
| ChunkReader.ErrorIsSticky | hlua/src/lua_functions.rs:113-116 | once an error is recorded, nothing more is read |
| AnyHashable.ToAny | hlua/src/any.rs:286-314 | the conversion keeps each variant and maps integers to the same number |
| AnyHashable.FromToAny | hlua/src/any.rs:286-314 | converting to AnyLuaValue loses nothing: the hashable value is recovered |
| AnyHashable.ToAnyInjective | hlua/src/any.rs:286-314 | different hashable values convert to different AnyLuaValues |
| AnyHashable.PairsAt | hlua/src/any.rs:298-306 | the j-th converted pair is the conversion of the j-th pair |
| Context.GlobalGet | hlua/src/lib.rs:248-256 | get panics exactly on a name with a NUL byte and keeps the height, heap and environment |
| Context.GlobalSet | hlua/src/lib.rs:258-265 | set refuses a name with a NUL byte and keeps the environment |
| Context.GlobalEmptyArray | hlua/src/lib.rs:267-277 | empty_array leaves one table on top |
| Context.ExecuteSpec | hlua/src/lib.rs:238-246 | execution that does not panic leaves the height as it was |
| Context.GetKeepsState | hlua/src/lib.rs:248-256 | get through a one-slot type leaves the state as it was |
| Context.SetStoresValue | hlua/src/lib.rs:258-265 | set stores the value under the name, keeps the stack, and changes no other global |
| Context.SetThenGet | hlua/src/lib.rs:248-265 | a global set then got yields the value set |
| Context.EmptyArrayStoresTable | hlua/src/lib.rs:267-277 | empty_array stores a fresh empty table under the name and leaves it on top |
| Context.ExecuteLoadError | hlua/src/lib.rs:238-246 | a chunk that does not load is reported as its load error before anything runs |
| Context.ExecuteSyntaxError | hlua/src/lib.rs:229-236 | code with a syntax error is a SyntaxError with lua_load's message |
| Context.ExecuteReturnsInteger | hlua/src/lib.rs:229-246 | code returning an integer in range yields that integer, with the stack as it was |
| Context.ExecuteBalanced | hlua/src/lib.rs:238-246 | execution that does not panic pops both the function and the result |
| Context.Lua.New | hlua/src/lib.rs:172-211 | a context over a fresh state that it must close |
| Context.Lua.FromExistingState | hlua/src/lib.rs:214-220 | a context over an existing state, closed only when asked |
| Context.Lua.Drop | hlua/src/lib.rs:281-287 | lua_close exactly when the context must close its state |
| Context.Lua.Get | hlua/src/lib.rs:248-256 | get on the interpreter follows GlobalGet |
| Context.Lua.Set | hlua/src/lib.rs:258-265 | set on the interpreter follows GlobalSet |
| Context.Lua.EmptyArray | hlua/src/lib.rs:267-277 | empty_array returns a proxy at -1 under a guard of one slot |
| Context.Lua.ExecuteFromReader | hlua/src/lib.rs:238-246 | execute_from_reader on the interpreter follows ExecuteSpec |
| Context.Lua.Execute | hlua/src/lib.rs:229-236 | execute is execute_from_reader over a cursor on the code |
| RoundTrips.AnyArrayPush | hlua/src/any.rs:63-81 | a LuaArray of scalars with distinct keys pushes one fresh table holding its pairs in order |
| RoundTrips.AnyArrayRoundTrip | hlua/src/any.rs:56-164 | such a LuaArray pushed and read back as AnyLuaValue is itself |
| RoundTrips.AnyPairsBack | hlua/src/any.rs:128-160 | the pairs of the pushed table read back as the original pairs |
| RoundTrips.AnyFoldEntries | hlua/src/any.rs:72-74 | the pair loop stores every pair of the array |
| RoundTrips.HashArrayPush | hlua/src/any.rs:181-199 | a hashable LuaArray of scalars with distinct keys pushes one fresh table holding its pairs |
| RoundTrips.HashArrayRoundTrip | hlua/src/any.rs:174-283 | such a hashable LuaArray pushed and read back as AnyHashableLuaValue is itself |
| RoundTrips.HashPairsBack | hlua/src/any.rs:252-280 | the pairs of the pushed table read back as the original hashable pairs |
| RoundTrips.HashFoldEntries | hlua/src/any.rs:190-192 | the hashable pair loop stores every pair |
| RoundTrips.PlainPairPush | hlua/src/tuples.rs:42-72 | a 2-tuple of scalars pushes its key and value as two slots |
| RoundTrips.PairSlots | hlua/src/rust_tables.rs:30 | a pushed 2-tuple element is stored as key/value |
| RoundTrips.PairFoldEntries | hlua/src/rust_tables.rs:17-33 | the element loop over 2-tuples stores each as a key/value pair |
| RoundTrips.VecOfPairsPush | hlua/src/rust_tables.rs:11-41 | a Vec of 2-tuples with distinct keys pushes a table where each key yields its value |
| RoundTrips.DictPushEntries | hlua/src/rust_tables.rs:92-101 | a HashMap pushes a table whose entries are its own, in order |
| RoundTrips.DictItemBack | hlua/src/lua_tables.rs:455-483 | each entry of the pushed map is read back by the iterator as the original entry |
| RoundTrips.DictTraversedBack | hlua/src/lua_tables.rs:455-483 | traversing the pushed map yields its entries |
| RoundTrips.HashMapRoundTrip | hlua/src/rust_tables.rs:92-101 | a HashMap pushed and traversed with its own key and value types gives back every entry, in order |

## Left out

- Interpreter execution: the model does not run Lua code. What lua_load answers, what a
  lua_pcall returns or raises, and the chunks a reader delivers are parameters
  (`LoadVerdict`, `CallOutcome`, `ReadStep`).
- Context.Lua.New: lua_newstate's allocator (lib.rs:179-191) and its failure are not
  modelled. The new state is a parameter.
- The panic handler installed with lua_atpanic (lib.rs:193-200) is not modelled. A Lua error
  outside a protected call does not occur in the model.
- `openlibs` (lib.rs:224-227) loads the standard libraries, which are interpreter code. It is
  not modelled.
- Reads.AnyOf: a table already on the path being decoded (a cycle such as `t.self = t`)
  reads as LuaOther. hlua recurses without bound there (any.rs:128-160) and overflows its
  stack. A total function needs a result, and LuaOther is the one hlua gives to values it
  cannot represent. Reads.HashableOf does the same.
- LuaApi.GetTable and LuaApi.SetTable are raw. `__index` and `__newindex` metamethods are not
  dispatched, so Tables.SetThenGet and Context.SetThenGet hold for tables without such
  metamethods.
- LuaApi.Trunc: the Lua 5.2 manual leaves the conversion of a non-integral number to an
  integer unspecified. The model truncates toward zero, which is what lua_Number to int casts
  do in C.
- Numerals.NumberText, Numerals.ParseNumber: numbers are exact reals, not 64-bit doubles.
  "%.14g" rounds the exact number to 14 digits, where C rounds the nearest double; strtod's
  rounding of a long numeral to the nearest double is not modelled, so a numeral reads as
  its exact value. Only '.' is a decimal point: the C locale's point is not modelled.
- Numerals.DigitsValue and Numerals.HexValue count a byte that is not a digit as 0. They are
  only applied to runs of digits, so this never shows in a result.
- Numbers are exact reals: there is no NaN, infinity or -0.0. A NaN key would make
  lua_settable raise an error, and an f32 read would round, but neither is modelled.
- LuaApi.Next walks a table in insertion order. Lua's own order depends on its hash layout.
  The model fixes one order, and every lemma about traversal is about that order.
- `__gc` metamethods and the destructors of boxed closures and userdata (userdata.rs:18-43,
  functions_write.rs:176-182) are stored but never run. Garbage collection is not modelled.
- Integers are modelled for the 8-, 16- and 32-bit widths hlua implements. The 64-bit types
  are not implemented in hlua either.
- Results of `call` and `get` read as LuaTable or LuaFunction: these proxies borrow the guard
  that holds the slot. The model reads them with Tables.ReadTable and Functions.ReadFunction
  at the index, and does not model the borrowed guard.
- UserdataOnStack's `Deref` (userdata.rs:130-146) yields the boxed Rust value through the
  pointer. The model has no Rust heap behind the pointer, so the read yields the userdata
  slot itself.
- UserdataRead.ReadUserdata: when the tag does not match, the metatable and the tag read
  stay on the stack, two slots more, as in the source (userdata.rs:111-115).
- lib.rs is an older revision than the other core files. Its `Push` trait returns a bare
  `PushGuard` (lib.rs:131). values.rs:21, tuples.rs and the other files implement the newer
  trait, whose `push_to_lua` returns `Result<PushGuard<L>, (E, L)>`. The model follows the
  newer trait: a push yields a guard or an error.
- functions_read.rs is an earlier revision of lua_functions.rs. Only its reader
  (functions_read.rs:29-47), used by `execute` through a cursor, is modelled. Its `call`
  (functions_read.rs:50-79) is modelled through the newer `call_with_args`.
- Context.GlobalSet: its ensures states only that a success keeps the environment.
  Context.SetStoresValue and Context.SetThenGet state what is stored.

## Findings

| source | as written | input that shows it | evidently intended | confidence | as-written member | corrected member |
|---|---|---|---|---|---|---|
| hlua/src/values.rs:156 | `String::from_utf8(...).unwrap()` panics on bytes that are not UTF-8 | the string with bytes FF FE FF FE, read as String or through AnyLuaValue | the read fails (returns Err), so that AnyLuaValue falls back to LuaAnyString, as the non_utf_8_string test at any.rs:630-641 expects | high, not executed | Reads.AsWrittenPanicsOnBadUtf8 (Reads.TextOfAsWritten) | Reads.TextOf |
| hlua/src/values.rs:155 | `CStr::from_ptr` stops at the first NUL and ignores the length lua_tolstring gave | the String "a\0b", pushed with lua_pushlstring in full (values.rs:126-127), reads back as "a" | the read yields all the bytes lua_tolstring reports, so that a push then a read gives back the string | medium, not executed | Reads.AsWrittenTruncatesAtNul (Reads.TextOfAsWritten) | Reads.TextOf |
| hlua/src/lua_tables.rs:471 | the key is read in place at -2. A String read converts a number key to a string in its slot, and that converted slot is the key the next lua_next receives | iterating {1=9, 2=8} with String keys: the first step yields ("1", 9), and the second lua_next receives "1", a key the table does not hold | the key is read from a copy, so the key slot stays the table's own key and the traversal visits every entry | high, not executed | Tables.TextKeyBreaksTraversal (Tables.StepAsWritten) | Tables.StepVisits, Tables.Collect (Tables.Step) |
| hlua/src/tuples.rs:56-64 | when a part after the first fails to push, Err(Other) is returned, but the first part's slots were given up at tuples.rs:48 and stay on the stack | the tuple (1, code with a syntax error): the push fails and leaves 1 on the stack | a failed push leaves the stack as it was, as every other failed push does | high, not executed | PushFacts.TupleLeak (PushFacts.PartsFromAsWritten) | Pushes.PartsFrom |
| hlua/src/lua_functions.rs:271-274 | when the arguments fail to push, the error is returned at lua_functions.rs:274, but the copy of the function pushed by lua_pushvalue at lua_functions.rs:271 stays on the stack | call_with_args with a LuaCodeFromReader argument whose reader fails | the copy is popped, so a failed call leaves the stack as it was | high, not executed | Functions.FailedArgumentsLeakCopy (Functions.CallWithArgsAsWritten) | Functions.CallWithArgsSpec, Functions.PushErrorBeforeCall |
| hlua/src/userdata.rs:116 | `lua_pop(-2)` is `lua_settop(1)`: it keeps only the bottom slot of the stack, not the userdata | read_userdata of a userdata pushed over a stack of one slot or more: the result designates the bottom slot | `lua_pop(2)`, which pops the metatable and the tag and leaves the userdata on top | high, not executed | UserdataRead.AsWrittenLosesUserdata, UserdataRead.PushedUserdataLostAsWritten (UserdataRead.ReadUserdataAsWritten) | UserdataRead.ReadUserdata, UserdataRead.AcceptsIffTagMatches |
