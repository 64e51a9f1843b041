# Request parameter extraction and coercion

A Dafny model of the single-value accessors of `request/request.go`:
`GetPathParams`, `GetQueryParam`, `GetHeaderParams`, and the type-directed
converter `convertToType` they all share.

- `wrappers.dfy` (`Wrappers`): `Option` and `Result`.
- `strings.dfy` (`Strings`): Go's `strings.Split` and `strings.Join` for a
  one-character separator, with the split/join laws.
- `strconv.dfy` (`StrConv`): `strconv.ParseBool` and `strconv.Atoi` with
  their exact literal grammars, plus the renderers `FormatBool` and `Itoa`.
  Go's `int` is 64 bits wide here.
- `coerce.dfy` (`Coerce`): the destination `Kind`, the stored `Value`, the
  intermediate JSON document, and `convertToType`. `Encode` is the `switch`
  on the reflected kind. `Decode` is the final `json.Unmarshal`, modelled as a
  table of which JSON shapes each destination kind accepts.
- `accessors.dfy` (`Accessors`): the three accessors over request views that
  are already parsed. Path parameters are two parallel lists, `names` and
  `vals`. The query is a `map<string, seq<string>>`. Headers are a multi-map
  keyed by canonical name.
- `scenarios.dfy` (`Scenarios`): the requests of `request/request_test.go`
  stated against the model.

A call's effect on its destination is an `Outcome`:

- `Stored(v)`: no error, and the destination now holds `v`.
- `Skipped`: an optional value was absent, so there is no error and the
  destination is untouched.
- `Refused(e)`: an error, and the destination is untouched.
- `Partial(e)`: an error that `json.Unmarshal` returns after it has already
  resized a slice destination whose element type is not a string. The error
  is the first element's type error: a JSON string refused by the element
  kind. The slice's contents are not modelled.

Behaviour of the code that the model keeps as written:

- `case reflect.Array | reflect.Slice` is a bitwise or of two kind
  constants (17 | 23 = 23), so it matches slices only. Arrays take the
  `default` branch. There they receive a JSON string, which `json.Unmarshal`
  refuses.
- Map destinations are always refused, and so is every modelled kind that
  reaches the `default` branch: arrays, structs, and Go's sized integers such
  as `int64`, because only `reflect.Int` is parsed as an integer.
- Boolean parsing is case-sensitive. Each truth value has exactly six
  spellings.
- A slice whose element type is not a string is not converted element by
  element. Its pieces stay JSON strings, which the element type refuses.
- The bool, int and float branches return before anything is written.
  `Partial` is the one error that leaves the destination changed.

## Model

| member | source | states |
|---|---|---|
| `Strings.Split` | request/request.go:96-98 | There is one piece more than the number of commas. No piece contains a comma, and joining the pieces with commas gives the input back. |
| `Strings.Join` | request/request.go:68 | The comma-join of a repeated query key's values. It starts with the first value, and joining n comma-free values puts exactly n - 1 commas in the result. |
| `Strings.SplitOfJoin` | request/request.go:68 | Splitting the comma-joined values of a query key gives the concatenation of each value's own pieces, in order. |
| `Strings.SplitJoin` | request/request.go:96-98 | Split undoes Join for any non-empty list of comma-free values. |
| `Strings.SplitCharacterisation` | request/request.go:97 | `Split(s)` equals `parts` exactly when `parts` is non-empty, comma-free and joins to `s`. |
| `StrConv.ParseBool` | request/request.go:101-105 | Accepts exactly `1 t T TRUE true True` as true and `0 f F FALSE false False` as false. Any other input, including other capitalisations, is a `ParseBool` syntax error. |
| `StrConv.FormatBool` | request/request.go:101-106 | The rendering of either boolean parses back to that same boolean. |
| `StrConv.Atoi` | request/request.go:119-123 | Succeeds exactly on an optional sign followed by one or more decimal digits whose value lies in the 64-bit `int` range, and returns that value. A well-formed literal out of range is a range error. A malformed input whose leading digits do not overflow 64 bits unsigned is a syntax error, and one whose leading digits do overflow is a range error. |
| `StrConv.Decimal` | request/request.go:124 | The decimal rendering of a natural number is a non-empty digit string with no leading zero, whose value is that number. |
| `StrConv.Itoa` | request/request.go:119-127 | The rendering of any integer is a literal `Atoi`'s grammar accepts, and it denotes that integer. Every in-range `int` therefore survives rendering and parsing back. |
| `Coerce.Encode` | request/request.go:90-130 | Only the bool, int and float branches can fail before JSON is produced. Exactly the string, map and default branches (arrays included) produce a JSON string, and it is the raw text unchanged. Exactly slice destinations, not arrays, produce a list. Its pieces hold no comma and join back to the raw text, so by `Strings.SplitCharacterisation` they are exactly `Split(raw, ',')`. |
| `Coerce.Decode` | request/request.go:134-137 | Decoding never skips. It stores a value exactly when that value fits the destination kind and marshals (`Coerce.JsonOf`) to the document, so unmarshalling inverts marshalling on fitting values. The result is partial exactly for a string list decoded into a slice of non-string elements, and its error is the type error of a JSON string refused by the element kind. Every other error is a type error naming the document's shape and the destination kind. |
| `Coerce.Convert` | request/request.go:85-139 | Strings (plain `string`, not `json.Number`) are stored verbatim. Bools succeed exactly on the twelve literals, and a failure is refused with the destination untouched. Ints succeed exactly on the signed-decimal grammar within range. Floats store a finite parse and refuse the rest. `[]string` receives the comma-separated pieces. Other slices fail partially, with the element kind's refusal of a JSON string. Maps, arrays and other modelled kinds are refused. |
| `Coerce.ConvertRenderRoundTrip` | request/request.go:85-139 | Converting the text rendering of any stored non-float value stores that same value again. |
| `Accessors.GetPathParams` | request/request.go:45-55 | The value at the first index whose name equals the key is converted, and later duplicates are ignored. A missing key gives "key not found" and leaves the destination untouched. The method requires only that the first matching index is within `vals`. |
| `Accessors.QueryValues` | request/request.go:61 | `URL.Query()[key]`: a present key yields all its values in the order given, and a non-empty result means the key is present. An absent key yields no values. |
| `Accessors.GetQueryParam` | request/request.go:60-69 | Skips exactly when the key has no values and the read is optional. If no values and required: `key '<key>' not found`, with the destination untouched. A single value is converted as it is. |
| `Accessors.QueryRepeatedIsJoined` | request/request.go:68 | `k=a&k=b&k=c` and `k=a,b,c` give the same outcome for every destination kind. |
| `Accessors.QuerySliceValues` | request/request.go:96-98 | A `[]string` destination receives every query value split on commas, concatenated in order. Comma-free values are received exactly as given. |
| `Accessors.HeaderGet` | request/request.go:75 | Returns the first value under the key when there is one, otherwise `""`. A non-empty result is always that first value. |
| `Accessors.GetHeaderParams` | request/request.go:74-83 | An empty lookup result counts as absent. It is skipped exactly when optional, and otherwise an error with the destination untouched. A non-empty first value is converted. |
| `Accessors.HeaderEmptyIsMissing` | request/request.go:75-81 | A header present with an empty first value behaves exactly like a missing header. |
| `Scenarios.QuerySliceScenarios` | request/request_test.go:17-62 | `param1=value1,value2,value3`, `param1=value1` and three repeated `param1` keys give `["value1","value2","value3"]`, `["value1"]` and `["value1","value2","value3"]`. |
| `Scenarios.QueryScalarScenarios` | request/request_test.go:63-137 | `value1` into a string, `42` into an int, `true` into a bool, and `42.42` into a float are stored. A missing required key is an error, and a missing optional key is skipped. |
| `Scenarios.BoolScenarios` | request/request.go:101-105 | `yes` and `tRuE` are refused with a `ParseBool` syntax error. `True` and `F` are accepted. |
| `Scenarios.ArrayScenario` | request/request.go:96 | `a,b` into an array is refused as a JSON string. The same text into `[]string` gives `["a","b"]`. |
| `Scenarios.PathScenarios` | request/request_test.go:140-176 | With names `param1, param2` and values `value1, value2`, each name yields its own value. With only `param1` bound, `param2` is not found. |
| `Scenarios.HeaderScenarios` | request/request_test.go:231-254 | `Content-Type: application/json` is read verbatim. An absent header with the read required is refused with `key 'Invalid-Key' not found`, leaving the destination untouched. |

## Left out

- `GetBody` is a one-line wrapper over `encoding/json` stream decoding and has no logic of its own.
- `GetRequestParameters` hands struct binding to the external `httpin` library, whose code is not part of this model. The tag-driven struct binder is therefore not modelled.
- `server/httpin_integration.go` and `server/server.go` only register directives and build the Echo server; they make foreign calls.
- Parsing the query string and percent-decoding it (`URL.Query()`) are not modelled. The query is given as the decoded multi-map.
- Header-name canonicalisation (`Header.Get`) is not modelled. Keys are assumed to be canonical already.
- `Coerce.Convert`: `strconv.ParseFloat` is an opaque parser parameter. A float destination stores the parsed real, so `float32` rounding is not modelled, and neither is the type error `json.Unmarshal` raises when a float overflows `float32`.
- `Coerce.Decode` covers only the document and kind pairs that `Encode` produces. Every other pair is reported as a type error. For some pairs that `Encode` never produces, such as a number into a float, that is stricter than `encoding/json`.
- `Coerce.Decode`: for `Partial` outcomes, the slice contents that `json.Unmarshal` leaves behind are not modelled. Depending on the slice's capacity, they can be zero values or stale elements.
- Destinations that are pointers or interfaces are not modelled, and neither are slices whose elements are pointers or interfaces. Types with their own `UnmarshalJSON` or `UnmarshalText`, such as `time.Time`, are left out too, as destinations and as elements. All of these can accept a JSON string: a `*string` destination through the `default` branch, and `[]any` or `[]*string` through the slice branch, where they would store every piece.
- `Coerce.Convert`: `json.Number` destinations are not modelled, and neither are slices of `json.Number`. Its kind is `reflect.String`, but `encoding/json` stores a JSON string into it only when the text is a valid number literal. So `abc` into a `json.Number` is an error in Go, while `Coerce.Convert` stores any text into a `StringK` destination and any pieces into `SliceK(StringK)`.
- `Coerce.Decode`: slices whose elements are `[]byte` are not modelled. `encoding/json` decodes a JSON string into `[]byte` as base64, so such a slice can succeed.
- Invalid UTF-8 in a raw value is not modelled. `json.Marshal` would replace it with U+FFFD; strings here are sequences of Unicode scalar values.
- A path lookup whose first matching index is past the end of `vals` panics in Go. It is excluded by `GetPathParams`'s precondition rather than modelled.
- `StrConv.Atoi` assumes a 64-bit platform. On a 32-bit platform Go's `int` has a narrower range, which is not modelled.
