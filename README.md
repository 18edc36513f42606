# WeatherLocation core, modelled in Dafny

WeatherLocation is a small browser application that reads the device's GPS
position, names the nearest place from a static list of Malaysian locations,
and shows a multi-day forecast from the Open-Meteo API. All of its logic sits
in `src/App.tsx`. This project models the parts of that file that compute
something:

- **Nearest-location lookup** (`findClosestLocation`). This is a linear scan
  that keeps the closest place seen so far. It starts from `null` at distance
  `Number.MAX_VALUE` and replaces the best place only on a strictly smaller
  distance. It is modelled as a method with a loop (`Nearest.FindClosestLocation`)
  and proved equal to a recursive specification (`Nearest.ClosestIndex`).
  Lemmas state what that specification means: `null` exactly when no place is
  closer than the seed, otherwise the first place of minimal distance.
- **Weather-code key and display fallback.** The numeric code becomes its
  decimal text (`Decimal`), padded with a leading `'0'` when shorter than two
  characters (`WeatherCode.CodeKey`). The key is looked up in the code table.
  The raw code is shown when the table is not loaded or the entry is missing
  or empty (`WeatherCode.ShownWeather`). Keys read back to their codes, so
  distinct codes never share a key.
- **Row assembly** (`renderRows`, `renderWeatherData`). The rows are a
  projection of the forecast's parallel columns: one row per date, with row
  `i` built from index `i` of every column (`Forecast.RenderRows`).
- **Location label.** The effect that runs on every coordinate change sets
  the label (`LocationLabel.NextLabel`). The `(-1, -1)` sentinel gives
  "Unknown, use GPS first". Otherwise the label shows the nearest place when
  there is one, and is left unchanged when there is none.

The distance function is a parameter of type `(real, real, real, real) -> real`.
It is called with the place's coordinates first and the target second, as the
source calls `calculateDistance`. Nothing proved here depends on it being the
haversine distance. JavaScript numbers are modelled as `real`, and weather
codes as `int`.

Three behaviours of the code are easy to miss:

- When no place is found, the code does not touch the label, so the previous
  label stays. This holds even when that label is still "Unknown, use GPS
  first".
- A table entry that is the empty string falls back to the raw code, just
  like a missing entry, because the code tests the status for truthiness.
- A result of `null` means that no place was closer than `Number.MAX_VALUE`.
  This is wider than an empty list.

## Model

| member | source | states |
|---|---|---|
| `Nearest.FindClosestLocation` | src/App.tsx:31-44 | The scan returns `null` exactly when no place is closer than `MAX_VALUE` (so always for an empty list). Otherwise it returns a listed place at minimal distance, and every earlier place is strictly farther. The result equals the recursive specification `Closest`. |
| `Nearest.ClosestIndex` | src/App.tsx:35-41 | The specification of the scan over a prefix: the last place is taken only when strictly closer than what the earlier scan holds. Any index it yields lies inside the list. |
| `Nearest.ClosestIndexSpec` | src/App.tsx:32-43 | The specification yields nothing exactly when every distance is at least the `MAX_VALUE` seed. Otherwise its distance is below the seed, no farther than any place, and strictly closer than every earlier place. |
| `Nearest.ClosestIndexIsFirstNearest` | src/App.tsx:35-41 | Both directions: the scan ends on index `k` if and only if `k` is the first place of minimal distance below the seed. |
| `Nearest.ExactMatchWins` | src/App.tsx:35-41 | With non-negative distances, a place at distance 0 is returned when every earlier place is at a positive distance. |
| `Nearest.ClosestExists` | src/App.tsx:33-40 | A non-empty list whose distances are all below `MAX_VALUE` never yields `null`. |
| `Decimal.NatToString` | src/App.tsx:112 | The decimal text of a natural number is non-empty and all digits. It has one character exactly for 0-9, and no leading zero otherwise. |
| `Decimal.IntToString` | src/App.tsx:112 | `String(n)` for an integer of magnitude at most 2^53: the natural number's digits, preceded by `-` for a negative number. |
| `Decimal.ParseNatToString` | src/App.tsx:112 | Reading the decimal text of a number back gives the number. |
| `Decimal.ParseNatLeadingZero` | src/App.tsx:113-114 | Putting a `'0'` in front of a digit string does not change its value. |
| `WeatherCode.CodeKey` | src/App.tsx:112-114 | Codes 0-9 get the key `'0'` followed by their digit. Every other code keeps its decimal text. Every key is at least two characters long. |
| `WeatherCode.CodeKeyRoundTrip` | src/App.tsx:112-115 | Every code's key parses back to that code, padding included. |
| `WeatherCode.CodeKeyInjective` | src/App.tsx:112-115 | Two codes with the same key are the same code. |
| `WeatherCode.WeatherStatus` | src/App.tsx:110-116 | The status is `''` while the table is not loaded. Once the table is loaded, it is the table's entry for the key, or `undefined` (None) when the key is missing. |
| `WeatherCode.ShownWeather` | src/App.tsx:110-124 | A description is shown if and only if the table is loaded and holds a non-empty entry for the key, and that entry is what is shown. Otherwise the raw code is shown. |
| `WeatherCode.KeyExamples` | src/App.tsx:112-124 | Code 61 has key "61" and code 3 has key "03". A table without "99" shows code 99 raw. |
| `Forecast.RenderRows` | src/App.tsx:105-128 | Exactly one row per date. Row `i` takes its date, min/max temperature, min/max apparent temperature (each with its unit) and its weather from index `i`. |
| `Forecast.RenderWeatherData` | src/App.tsx:101-131 | The "Use GPS first" prompt shows exactly while no forecast has arrived. Otherwise the view holds the forecast's rows, one per date, each projected from its own index. |
| `Forecast.RowsIgnoreExtraEntries` | src/App.tsx:107-124 | Column entries past the last date of `time` never reach a row. |
| `Forecast.RowsOfFirstDays` | src/App.tsx:109-127 | Rendering only the first `k` dates gives the first `k` rows, so each row depends only on its own day. |
| `Forecast.FiveDaysFiveRows` | src/App.tsx:109-127 | A forecast with five dates renders exactly five rows. |
| `LocationLabel.NextLabel` | src/App.tsx:84-91 | At the `(-1, -1)` sentinel the label asks for GPS. Otherwise it shows the nearest place when the scan finds one, and stays as it was when the scan finds none. |
| `LocationLabel.NextLabelKeptOrNearest` | src/App.tsx:88-90 | Away from the sentinel, the label is kept when no place is closer than `MAX_VALUE`, and is replaced by the first nearest listed place otherwise. |
| `LocationLabel.LabelShowsPlace` | src/App.tsx:88-90 | Away from the sentinel, with a non-empty list whose distances are all below `MAX_VALUE`, the label shows the first nearest listed place. |

## Left out

- `calculateDistance` and `toRadians` (src/App.tsx:46-61): these are floating-point trigonometry. The distance is a function parameter instead, so haversine symmetry and zero self-distance are not proved.
- IEEE-754 arithmetic: distances and coordinates are exact reals, so NaN, infinities and rounding are not modelled.
- The forecast `fetch`, JSON parsing and the unhandled failure of either: this is network I/O. The last-resolving response overwriting state is an asynchronous ordering effect outside this sequential model.
- Loading the location list and the code table with dynamic imports: this is asynchronous resource loading. Both are inputs, and the table's "not yet loaded" state is `None`.
- Geolocation, the failure `alert` and the button's enable/disable state: these are device and UI callbacks.
- React hooks, state setters and JSX markup: the model keeps what a row and the label contain, not their markup or the React `key`.
- The text of the label for a place, `name (lat , lng)`: JavaScript's number-to-text formatting of non-integers is not modelled, so the label holds the place itself.
- `src/index.tsx`: DOM root creation, service-worker registration, messaging and page reload are browser bootstrap with no computation of their own.
- Decimal.IntToString: models `String(n)` only for integers of magnitude at most 2^53. Above that, JavaScript prints the shortest round-trip digits followed by zeros, and from 10^21 it uses exponent notation. Fractional codes are not modelled either. Weather codes lie in 0-99.
- Forecast.RenderRows: requires every column to have an entry for each date. The API always sends aligned columns. Given a shorter column, the source would show an empty cell (`undefined`).
