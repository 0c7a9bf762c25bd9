# FindGold — a verified model of the search normaliser and the UI state rules

FindGold helps amateur gold prospectors find promising river segments. A
language model does the geological reasoning; the application turns its
answers into result cards, a map with geology overlays and a city search form.
This project models, in Dafny, the parts of the application that hold logic of
their own:

- **The gold-location search** (`searchGoldLocations`). The chat reply is
  parsed as JSON. `mainSpots` and `secondarySpots` must both be arrays. Every
  entry is repaired in place by `validateSpot`, one `forEach` loop per list:
  - a falsy name becomes "Spot principal N" or "Spot secondaire N";
  - anything but an array in `coordinates` becomes `[0, 0]`;
  - falsy `type`, `description`, `geology`, `history`, `rating`, `sources`
    and `hotspots` take fixed defaults;
  - `isMainSpot` is forced to the flag of the entry's list.

  A failed request or empty content gives the error fallback. Any other
  failure gives the parse fallback. Each fallback has one main spot named
  after the city. The loops are a method over an array of entries
  (`RepairEntries`). It is proved against the recursive specification
  `RepairFrom`, and the whole search (`SearchGoldLocations`) is proved equal
  to the specification `Normalize`.
- **The geology layer list of the map modal**. It has two id-keyed updates:
  toggling visibility and setting opacity. The overlays drawn are the visible
  layers, in list order.
- **The search form**. It is a class whose fields are the React state plus
  the debounce timer slot. Keystrokes, the timer firing, a suggestion fetch
  settling, a suggestion click, submit and the search settling are methods.
  The source has a quirk, and the model keeps it: input shorter than two
  characters does not turn the spinner off. `ShortInputKeepsSpinner` shows
  the resulting state: the spinner is on, and no timer or fetch is running.
- **The result card helpers**: the star count, the description cut to 150
  characters, and the hotspot count with the locations joined by ", ".
- **Image formatting for analysis** (`validateAndFormatBase64Image`). `atob`
  accepts exactly what the forgiving-base64 decode of the WHATWG Infra Standard
  accepts. The model writes that decode out as a predicate
  over the alphabet of section 4 of RFC 4648. The module also holds the
  fixed guidance text that `analyzeImage` falls back to.

JavaScript values are modelled as a JSON datatype (`Json.JsonValue`). Its
truthiness rule is `Json.Truthy`: `null`, `false`, `0` and `""` are falsy,
and every array and object is truthy. A spot object is a record of the ten
properties `validateSpot` reads or writes, plus every other property. An
absent property is `None`. The modules were written in ES-module strict mode,
so a `null` or primitive entry throws inside `validateSpot`. The model sends
such a list to the parse fallback. `JSON.parse`, the chat backend and the
image backend are parameters of the model.

The code checks less than the `GoldLocation` interface types
(`findgold/src/services/openai/search/goldLocations.ts`, lines 9-31) declare.
The model follows the code:
- coordinates are kept when they are any array, of any length;
- a rating of `0` is replaced by 3, like a missing one;
- a truthy `sources` or `hotspots` that is not a list is kept as it is;
- the fields are not checked for type;
- a failed backend call is caught at line 118, so `searchGoldLocations` never
  rejects.

## Model

| member | source | states |
|---|---|---|
| `Json.Or` | findgold/src/services/openai/search/goldLocations.ts:75-81 | `spot.key \|\| default` yields the value read when it is truthy and the default otherwise (absent reads as falsy); with a truthy default the result is always truthy |
| `Json.OrAbsorbs` | findgold/src/services/openai/search/goldLocations.ts:75-81 | with a truthy default, applying `\|\| default` to an already defaulted value changes nothing, and that value reads as truthy: the per-property reason a repaired spot is not changed again |
| `Decimal.DecimalString` | findgold/src/services/openai/search/goldLocations.ts:67 | `${index + 1}`: at least one digit, all decimal digits, no leading zero |
| `Decimal.DecimalRoundTrip` | findgold/src/services/openai/search/goldLocations.ts:67 | reading back the decimal text of `index + 1` gives the number: the synthesised name encodes the position without loss |
| `Decimal.DecimalStringInjective` | findgold/src/services/openai/search/goldLocations.ts:67 | distinct positions give distinct decimal texts |
| `GoldLocations.SpotName` | findgold/src/services/openai/search/goldLocations.ts:67 | the synthesised name, never empty; `SpotNameReadsBack` states what it is made of |
| `GoldLocations.SpotNameReadsBack` | findgold/src/services/openai/search/goldLocations.ts:67 | the synthesised name is "Spot principal " or "Spot secondaire " by list, followed by digits that read back as `index + 1` |
| `GoldLocations.SpotNamesDistinct` | findgold/src/services/openai/search/goldLocations.ts:66-68 | no two entries, of the same list or of different lists, get the same synthesised name |
| `GoldLocations.RepairSpot` | findgold/src/services/openai/search/goldLocations.ts:65-83 | after `validateSpot`: a truthy name is kept and a falsy one becomes "Spot principal/secondaire N"; any array in coordinates is kept, anything else becomes [0,0]; each truthy defaulted field is kept, each falsy one takes its fixed default (rating 3, sources and hotspots []); `isMainSpot` is the list's flag; other properties are untouched; the result satisfies `Repaired` |
| `GoldLocations.RepairedIsFixedPoint` | findgold/src/services/openai/search/goldLocations.ts:65-83 | a spot that already satisfies `Repaired` for its list is returned unchanged |
| `GoldLocations.RepairSpotIdempotent` | findgold/src/services/openai/search/goldLocations.ts:65-83 | repairing a repaired spot again, at any position, changes nothing |
| `GoldLocations.RepairKeepsPopulatedLocation` | findgold/src/services/openai/search/goldLocations.ts:9-31 | a well-typed `GoldLocation` with non-empty texts and a non-zero rating comes out of the repair unchanged, `goldOrigin` and `referencedSpots` included |
| `GoldLocations.EntryView` | findgold/src/services/openai/search/goldLocations.ts:66 | an entry can be repaired exactly when it is an object; `null` and primitives throw |
| `GoldLocations.RepairFrom` | findgold/src/services/openai/search/goldLocations.ts:85-86 | the `forEach` succeeds exactly when every entry is an object; the list keeps its length and order and entry i becomes the repair of the entry at i with position i |
| `GoldLocations.RepairListIdempotent` | findgold/src/services/openai/search/goldLocations.ts:85-86 | running the repair loop over its own output gives the same list |
| `GoldLocations.RepairEntries` | findgold/src/services/openai/search/goldLocations.ts:85-86 | the in-place loop: it succeeds exactly when every entry is an object, and then entry k holds the repair of the old entry k; on a throw, the entries before the first non-object are repaired and the rest are untouched |
| `GoldLocations.Fallback` | findgold/src/services/openai/search/goldLocations.ts:96-114 | a fallback has exactly one main spot: named after the city, type "rivière", coordinates [0,0], the given description, geology and history "Information non disponible", rating 3, no sources, the one "Non disponible" hotspot, `isMainSpot` true, no other property; no secondary spot |
| `GoldLocations.FallbacksDifferOnlyInDescription` | findgold/src/services/openai/search/goldLocations.ts:118-142 | the error fallback is the parse fallback with only the main spot's description replaced, and the two differ |
| `GoldLocations.FallbackIsRepaired` | findgold/src/services/openai/search/goldLocations.ts:96-114 | with a non-empty city the fallback spot satisfies `Repaired` for a main spot |
| `GoldLocations.Normalize` | findgold/src/services/openai/search/goldLocations.ts:38-144 | what `searchGoldLocations` resolves to; every main spot of any result has `isMainSpot` true and every secondary spot false |
| `GoldLocations.SearchGoldLocations` | findgold/src/services/openai/search/goldLocations.ts:38-144 | the imperative search (content check, parse, shape checks, both repair loops in place, fallbacks) returns exactly `Normalize` of its inputs |
| `GoldLocations.NoContentGivesErrorFallback` | findgold/src/services/openai/search/goldLocations.ts:47-50 | a failed request, or absent or empty content, gives the error fallback |
| `GoldLocations.MalformedReplyGivesParseFallback` | findgold/src/services/openai/search/goldLocations.ts:52-62 | content that does not parse, a reply without both lists as arrays, or a non-object entry in either list gives the parse fallback |
| `GoldLocations.WellShapedReplyIsRepaired` | findgold/src/services/openai/search/goldLocations.ts:85-91 | for a well-shaped reply both result lists keep the parsed lists' lengths and order, and each entry is the repair of the parsed object at its position, main or secondary |
| `GoldLocations.ResultSpotsAreRepaired` | findgold/src/services/openai/search/goldLocations.ts:82-91 | with a non-empty city every spot of every result, fallback or repaired reply, satisfies `Repaired` for its list |
| `GoldLocations.NamedSpotGetsDefaults` | findgold/src/services/openai/search/goldLocations.ts:65-83 | a reply with one main spot holding only the name "Rivière A" keeps that name and gets type "cours d'eau", coordinates [0,0], rating 3, no hotspots, `isMainSpot` true |
| `MapModal.ToggleLayer` | findgold/src/components/MapModal.tsx:42-49 | the list keeps its length and order; a layer's `visible` changes exactly when its id matches; every other field of every layer is unchanged |
| `MapModal.SetOpacity` | findgold/src/components/MapModal.tsx:52-59 | matching layers take the new opacity and the others keep theirs; every other field and the order are unchanged |
| `MapModal.ToggleTwiceRestores` | findgold/src/components/MapModal.tsx:42-49 | toggling the same id twice gives back the original list |
| `MapModal.SetOpacityIdempotent` | findgold/src/components/MapModal.tsx:52-59 | applying the same opacity change twice equals applying it once |
| `MapModal.UnknownIdChangesNothing` | findgold/src/components/MapModal.tsx:42-59 | an id no layer carries leaves the list unchanged under both updates |
| `MapModal.VisibleLayers` | findgold/src/components/MapModal.tsx:145 | the overlays drawn are all the visible layers and only those |
| `MapModal.VisibleLayersOfConcat` | findgold/src/components/MapModal.tsx:145 | the filter keeps list order: the overlays of a concatenation are the overlays of the parts, in order |
| `MapModal.ToggleOfConcat` | findgold/src/components/MapModal.tsx:44-48 | the toggle acts element by element: it distributes over concatenation |
| `MapModal.VisibleAroundLayer` | findgold/src/components/MapModal.tsx:145 | a visible layer is drawn between the overlays of the layers before it and those after it |
| `MapModal.VisibleAroundHiddenLayer` | findgold/src/components/MapModal.tsx:145 | a hidden layer adds no overlay between those of its neighbours |
| `MapModal.ToggleUniqueLayer` | findgold/src/components/MapModal.tsx:42-49 | toggling an id only one layer carries flips exactly that layer and leaves the rest of the list unchanged |
| `MapModal.ToggleHidesOverlay` | findgold/src/components/MapModal.tsx:42-49 | toggling a drawn layer whose id is unique removes exactly that overlay and keeps the order of the others |
| `RiverCard.Round` | findgold/src/components/RiverCard.tsx:12 | `Math.round` gives the integer within one half of the input, halves going up |
| `RiverCard.StarCount` | findgold/src/components/RiverCard.tsx:12 | the star count is between 1 and 5; a rating of 4.5 or more gives 5 and one below 1.5 gives 1 |
| `RiverCard.RenderRating` | findgold/src/components/RiverCard.tsx:11-13 | the rating is drawn as 1 to 5 star characters, as many as `StarCount` |
| `RiverCard.IntegerRatingStars` | findgold/src/components/RiverCard.tsx:12 | a whole-number rating r gives min(5, max(1, r)) stars, so 1 to 5 map to themselves |
| `RiverCard.StarCountMonotonic` | findgold/src/components/RiverCard.tsx:12 | a higher rating never shows fewer stars |
| `RiverCard.ShownDescription` | findgold/src/components/RiverCard.tsx:51-53 | a description of at most 150 characters is shown unchanged; a longer one is shown as its first 150 characters followed by "...", 153 in all |
| `RiverCard.ShownDescriptionIdempotent` | findgold/src/components/RiverCard.tsx:51-53 | the shown text is never over 153 characters, and cutting it again changes nothing |
| `RiverCard.Join` | findgold/src/components/RiverCard.tsx:77 | `items.join(separator)`: no items give the empty text and one item gives that item; `JoinAppend` gives each further step and `JoinLength` the length |
| `RiverCard.JoinAppend` | findgold/src/components/RiverCard.tsx:77 | `join(", ")` puts exactly one separator before each further item, in order |
| `RiverCard.JoinLength` | findgold/src/components/RiverCard.tsx:77 | a join is as long as its items plus one separator between each two neighbours |
| `RiverCard.HotspotSummary` | findgold/src/components/RiverCard.tsx:56-77 | the hotspot block is drawn exactly when there are hotspots; it shows their count and their locations joined by ", " in order |
| `RiverCard.HotspotSummaryAppend` | findgold/src/components/RiverCard.tsx:70-77 | one more hotspot counts one more and appends ", " and its location to the list shown |
| `ImageAnalysis.StripWhitespace` | findgold/src/services/openai/analysis/imageAnalysis.ts:12 | the first decode step leaves no ASCII whitespace and never lengthens the text |
| `ImageAnalysis.StripWhitespaceOfConcat` | findgold/src/services/openai/analysis/imageAnalysis.ts:12 | the first decode step works piece by piece: stripping a concatenation concatenates the stripped parts |
| `ImageAnalysis.StripWhitespaceKeeps` | findgold/src/services/openai/analysis/imageAnalysis.ts:12 | every character that is not whitespace survives the first decode step, between what its two sides become, so the other characters are kept in order |
| `ImageAnalysis.Base64Decodable` | findgold/src/services/openai/analysis/imageAnalysis.ts:11-15 | whether `atob` accepts the text (forgiving-base64 decode); accepted text never has a whitespace-free length of 1 modulo 4 |
| `ImageAnalysis.DropPadding` | findgold/src/services/openai/analysis/imageAnalysis.ts:12 | padding is only dropped when the length is a multiple of four |
| `ImageAnalysis.FormatBase64Image` | findgold/src/services/openai/analysis/imageAnalysis.ts:4-19 | input starting with "data:image/" is returned as it is, with no check; other input that `atob` refuses gives the error "Format base64 invalide"; otherwise the result is "data:image/jpeg;base64," followed by the input; every success starts with "data:image/" |
| `ImageAnalysis.FormatIdempotent` | findgold/src/services/openai/analysis/imageAnalysis.ts:6-18 | formatting a formatted image gives the same result |
| `ImageAnalysis.StripWhitespaceIdempotent` | findgold/src/services/openai/analysis/imageAnalysis.ts:12 | removing whitespace twice is removing it once, and it does not change whether `atob` accepts the input |
| `ImageAnalysis.Base64TextIsNoDataUrl` | findgold/src/services/openai/analysis/imageAnalysis.ts:6 | base64 text never starts with "data:image/", so plain base64 always reaches the validity check |
| `ImageAnalysis.DropPaddingOfPadded` | findgold/src/services/openai/analysis/imageAnalysis.ts:12 | the padding step removes exactly the "=" or "==" that RFC 4648 adds |
| `ImageAnalysis.PaddedEncodingDecodable` | findgold/src/services/openai/analysis/imageAnalysis.ts:11-15 | every padded encoding as RFC 4648 writes it passes the `atob` check |
| `ImageAnalysis.PaddedEncodingFormatted` | findgold/src/services/openai/analysis/imageAnalysis.ts:11-18 | every padded RFC 4648 encoding is formatted as the JPEG header followed by the text |
| `ImageAnalysis.OneCharOverIsRefused` | findgold/src/services/openai/analysis/imageAnalysis.ts:11-15 | input whose length without whitespace is 1 modulo 4 is refused with "Format base64 invalide" |
| `ImageAnalysis.AnalyzeImage` | findgold/src/services/openai/analysis/imageAnalysis.ts:21-58 | the backend is called exactly when formatting succeeds, and with the formatted image; when formatting throws, the text is the fixed guidance text |
| `ImageAnalysis.AnalyzeImageDescribed` | findgold/src/services/openai/analysis/imageAnalysis.ts:29 | a reply gives its description, or "Aucune analyse disponible" when that is empty or absent |
| `ImageAnalysis.AnalyzeImageRequestFailed` | findgold/src/services/openai/analysis/imageAnalysis.ts:30-56 | a failed backend call gives the guidance text |
| `SearchForm.Trim` | findgold/src/components/SearchForm.tsx:57 | `s.trim()` is the slice of `s` between its leading and trailing white space: everything cut from either end is white space, and the result neither starts nor ends with white space |
| `SearchForm.TrimEmptyIffBlank` | findgold/src/components/SearchForm.tsx:57 | `!location.trim()` holds exactly when the field holds only JavaScript white space (or nothing) |
| `SearchForm.Form.constructor` | findgold/src/components/SearchForm.tsx:11-18 | the form starts with an empty field, radius 50, no suggestions, nothing shown, focused, loading or searching, and no timer or fetch |
| `SearchForm.Form.InputChange` | findgold/src/components/SearchForm.tsx:20-43 | after a keystroke the field holds the new value and the previous timer is cancelled; two or more characters turn the spinner on and schedule a fetch of that value after 250 ms; shorter input schedules nothing, empties and hides the suggestions, and leaves the spinner as it was |
| `SearchForm.Form.TimerFires` | findgold/src/components/SearchForm.tsx:30-32 | the pending timer fires: a fetch starts for the value it captured and no timer is left pending |
| `SearchForm.Form.FetchSettles` | findgold/src/components/SearchForm.tsx:31-37 | a successful fetch replaces the suggestions and shows them; success or failure, the spinner turns off |
| `SearchForm.Form.SuggestionClick` | findgold/src/components/SearchForm.tsx:49-53 | a click puts the city in the field and empties and hides the list |
| `SearchForm.Form.Submit` | findgold/src/components/SearchForm.tsx:55-61 | submit does nothing when the trimmed field is empty or a search is running; otherwise it hides the list, sets `isSearching` and starts a search for the field and radius |
| `SearchForm.Form.SearchSettles` | findgold/src/components/SearchForm.tsx:62-69 | whether the search succeeded or threw, `isSearching` is cleared |
| `SearchForm.Form.RadiusChange` | findgold/src/components/SearchForm.tsx:45-47 | the slider sets the radius |
| `SearchForm.Form.Focus` | findgold/src/components/SearchForm.tsx:80 | focusing marks the field focused |
| `SearchForm.Form.SuggestionListVisible` | findgold/src/components/SearchForm.tsx:100 | the list is drawn when `showSuggestions && inputFocused && suggestions.length > 0`; `SuggestionClick`, `Submit`, short input and `BlurSettles` each ensure it is not drawn |
| `SearchForm.Form.BlurSettles` | findgold/src/components/SearchForm.tsx:81 | once the blur timer fires, the field is unfocused and the suggestion list is not drawn |
| `SearchForm.Form.TypeAndWait` | findgold/src/components/SearchForm.tsx:20-43 | from any valid state, a burst of keystrokes with no 250 ms pause and then the pause adds at most one fetch to those running: for the last value, and only when it has two or more characters; the field holds the last value and no timer is left; a last value of two or more characters leaves the spinner on, a shorter one leaves the list empty and hidden; radius, focus and a running search are untouched; an empty burst only lets the already pending timer fire |
| `SearchForm.KeystrokeBurst` | findgold/src/components/SearchForm.tsx:20-43 | from a fresh form, a burst of keystrokes leads to exactly one fetch, for the last value, and only when it has two or more characters |
| `SearchForm.ShortInputKeepsSpinner` | findgold/src/components/SearchForm.tsx:39-42 | after "ab" and then "a", the spinner is still on while no timer is pending and no fetch runs |

## Left out

- Network and I/O: the HTTP proxy (`findgold/backend/server.js`) and the fetch client (`findgold/src/services/openai/client.ts`) are not part of this model. The chat reply, the image reply and the outcome of `fetchCitySuggestions` are inputs. `console.error` logging is not modelled.
- `JSON.parse` is a parameter that returns `None` where it would throw. Its grammar is not modelled.
- The prompt text and the `radius` argument of `searchGoldLocations` only shape the request to the language model. They are not modelled.
- An entry that is itself a JSON array: JavaScript would set the repaired fields as properties of the array object. The value model cannot represent an array with named properties, so such an entry goes to the parse fallback together with `null` and the primitives.
- The order of an object's properties is not modelled (objects are maps).
- Numbers are reals. `JSON.parse` yields no NaN, but an overflowing literal such as `1e999` parses to an infinity and `-0` to negative zero; the model does not represent either. Truthiness, and with it the repair, is unaffected: an infinity is truthy like any non-zero real and `-0` is falsy like `0`.
- Strings are sequences of Unicode scalar values. JavaScript counts UTF-16 code units in `value.length`, `description.length` and `substring(0, 150)`. The two agree on text without characters outside the Basic Multilingual Plane.
- RiverCard.RenderRating: takes a number. A repaired spot can hold a truthy non-number rating, and `Math.round` first converts it with ToNumber. Numeric text, `true` and one-number arrays give stars as their number would (`"4"` and `[4]` give 4, `true` gives 1), `[]` reads as 0 and gives 1 star, and anything else (`"abc"`, `{}`, `[1,2]`) gives NaN and no star. The model does not represent these conversions. Float rounding of `Math.round` on huge values is not modelled either.
- RiverCard.ShownDescription: takes a string. A repaired spot's `description` is only known to be truthy, not to be a string, and the card's `description.length` and `substring` on a non-string value are not modelled.
- RiverCard.HotspotSummary: takes a list of hotspot records. A repaired spot's `hotspots` is only known to be truthy. An entry without a `location` (rendered by `.map(h => h.location).join(', ')` as empty text), a non-string `location`, and a truthy non-list `hotspots` are not represented.
- The rest of the card, `toFixed(4)` on the coordinates, `getBbox`, the map size, the Google Maps and WMS URLs, and all JSX layout, styling and hover handlers: these are floating-point work or presentation.
- The initial layer list `geologyLayers`, the `GeologyLayer` type and `generateWmsUrl` come from `brgmService`, which is not part of this model. A layer's other fields are a type parameter. Opacity is an opaque value.
- Real time in the search form: timers are explicit events. The 250 ms delay is recorded on the pending timer. The blur handler's 200 ms timer is the event `BlurSettles`.
- SearchForm.Form.FetchSettles: requires that the fetch it settles has started. Only a started fetch can settle.
- The search form's disabled input and button while a search runs are DOM behaviour and are not modelled. The handlers do their own checks, and the model covers those.
- The `onSearch` callback, and what the page does with its results (`findgold/src/pages/FindGoldNearby/FindGoldNearby.tsx`), are not part of this model.
- ImageAnalysis.AnalyzeImage: the backend's `description` is a possibly absent string. A truthy non-string description would be returned as it is.
- The river, rock and gold-line analyses (`riverAnalysis.ts`, `rockAnalysis.ts`, `goldLine.ts`) only wrap backend calls with `||` defaults. They are not part of this model.
