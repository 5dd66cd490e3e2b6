# Mexican stock-exchange dashboard: computational core

`appchida.py` is a single-file Streamlit dashboard for a fixed list of
equities on the Bolsa Mexicana de Valores. For the chosen ticker it fetches
company metadata and five years of daily prices, translates the English
descriptions to Spanish, and shows annualised growth rates (CAGR) over 1, 3
and 5 years. This project models the parts of that file that are logic
rather than user interface, network or floating-point work, and proves what
they do.

- `wrappers.dfy` — `Option` and `Result`, standing for a call that raised.
- `translation.dfy` — `translate_to_spanish`: the sentinel check, the split of
  the text into slices of at most 5000 characters (a sequence comprehension,
  as the list comprehension of the source), one call to the translation
  service per slice in a loop, the `" ".join`, and the fall-back to the
  original text. The service is a parameter `translate: string -> Option<string>`
  (`None` means the call raised); the method also returns the list of
  arguments it handed to the service, in call order, and whether the warning
  is shown.
- `stock_data.dfy` — `get_stock_data`: the loop that projects the provider's
  metadata onto four keys with `''` as default, and the `({}, empty)` result on
  any provider error. The provider's metadata and history are parameters of
  type `Result`; whether the error message is shown is an out-parameter.
- `metrics.dfy` — `calculate_cagr` with its guard, Python/pandas positional
  indexing (`iloc`, negative positions counted from the end), the base-price
  selection of the three windows, and the table of three annualised returns
  of `show_performance_metrics`. The fractional power `** (1 / years)` is a
  parameter `pow`; lemmas that need it assume only `x ** 1 == x`,
  `1 ** y == 1`, or that `x ** (1 / n)` is an n-th root of a positive `x`.

The window base price is read with `iloc[-k]` when the series has at least k
points. That is position `N - k`, which lies k − 1 trading days before the
last point, not k (position 48 for 300 points and the 252-day window).
`Metrics.BaseIndex` and `Metrics.ThreeHundredPoints` state this behaviour.

## Model

| member | source | states |
|---|---|---|
| `Translation.TranslateToSpanish` | appchida.py:52-70 | Empty text and `'No disponible'` return "No hay descripción disponible." with no call to the service and no warning. Otherwise the service gets exactly the 5000-character slices, in order. If every call succeeds, the result is the translations joined by single spaces, with no warning. If a call fails, the calls stop at the first failing slice, the warning is shown and the original text is returned unchanged. |
| `Translation.IsSentinel` | appchida.py:53 | Definition with no contract of its own: empty text or exactly `'No disponible'`. `TranslateToSpanish` states what follows from it. |
| `Translation.TranslateAll` | appchida.py:61-65 | Translating the slice list succeeds exactly when every slice's call succeeds. Then it gives one translation per slice, position by position. |
| `Translation.FirstFailure` | appchida.py:62-68 | When a translation fails, this is the position of the first failing slice; every slice before it translated. |
| `Translation.Chunks` | appchida.py:58-59 | Definition with no contract of its own: the list comprehension `text[i:i+5000]` for `i` in `range(0, len(text), 5000)`. `ConcatChunks`, `ChunkSizes`, `ChunksSingle`, `ChunksUnfold` and `TwelveThousandCharacters` state its properties. |
| `Translation.ConcatChunks` | appchida.py:58-59 | The slices, laid end to end, give back the input text exactly. |
| `Translation.ChunkSizes` | appchida.py:58-59 | There are ⌈len/5000⌉ slices, none for empty text. No slice is empty or longer than 5000 characters. All but the last are exactly 5000. |
| `Translation.ChunksSingle` | appchida.py:59 | A non-empty text of at most 5000 characters is its own single slice. |
| `Translation.ChunksUnfold` | appchida.py:59 | For a text longer than 5000 characters, the slices are its first 5000 characters followed by the slices of the rest. |
| `Translation.TwelveThousandCharacters` | appchida.py:58-59 | A 12000-character text is cut into three slices of 5000, 5000 and 2000 characters. |
| `Translation.ShortTextOneCall` | appchida.py:59-67 | A non-sentinel text that fits in one slice is sent whole, and its translation is returned with nothing added. The lemma itself does not exclude `'No disponible'`; `TranslateToSpanish` never sends that text. |
| `Translation.Join` | appchida.py:67 | Definition with no contract of its own: `" ".join(parts)`. `JoinLength`, `JoinAppend` and `ShortTextOneCall` state its properties. |
| `Translation.JoinLength` | appchida.py:67 | The joined text is as long as all parts together plus one separator between each pair of neighbours. |
| `Translation.JoinAppend` | appchida.py:67 | Joining a list with one more part appends a single space and that part. |
| `StockData.GetStockData` | appchida.py:91-112 | If the metadata and history calls both succeed, the info map has exactly the keys longName, sector, industry and longBusinessSummary, each holding the provider's value or `''`, and the history is returned as the provider gave it. On any provider error the result is an empty map and an empty history, with the error shown. The info map is empty exactly when an error occurred. |
| `StockData.PyGet` | appchida.py:99 | Definition with no contract of its own: `dict.get(key, default)`. `GetStockData` and `ProjectedDefaultsUnused` state what follows from it. |
| `StockData.ProjectedDefaultsUnused` | appchida.py:198-201 | In the projected info map, looking up any of the four keys never falls back to the caller's default. |
| `Metrics.Cagr` | appchida.py:73-76 | Definition with no contract of its own: `calculate_cagr`, with the power passed in as a parameter. `CagrDegenerate`, `CagrOneYear`, `CagrDoublingInOneYear`, `CagrUnchanged` and `CagrCompounds` state its properties. |
| `Metrics.CagrDegenerate` | appchida.py:73-75 | A non-positive initial value or a non-positive number of years gives 0, for any final value. |
| `Metrics.CagrOneYear` | appchida.py:73-76 | For a positive initial value over one year, the CAGR is final/initial − 1. |
| `Metrics.CagrDoublingInOneYear` | appchida.py:73-76 | calculate_cagr(100, 200, 1) is 1.0. |
| `Metrics.CagrUnchanged` | appchida.py:73-76 | An unchanged value (final equal to initial) gives 0 over any horizon. |
| `Metrics.CagrCompounds` | appchida.py:73-76 | For positive values and n whole years, compounding 1 + CAGR for n years turns the initial value into the final one. |
| `Metrics.BaseIndex` | appchida.py:149-151 | The base position of a k-day window in a series of N ≥ 1 points lies in [0, N−1] and never after the current price at N−1. The window from it to the last point holds min(N, k) points. |
| `Metrics.ILoc` | appchida.py:148-151 | Definition with no contract of its own: pandas positional `iloc[j]`, with negative positions counted from the end and an out-of-range position raising. `PriceKAgoAtBaseIndex` states what it reads. |
| `Metrics.PriceKAgo` | appchida.py:149-151 | Definition with no contract of its own: `iloc[-k] if len >= k else iloc[0]`. `PriceKAgoAtBaseIndex` states its properties. |
| `Metrics.PriceKAgoAtBaseIndex` | appchida.py:149-151 | The `iloc[-k] if len >= k else iloc[0]` lookup raises only on an empty series. Otherwise it reads the close at the base position. |
| `Metrics.WindowsNested` | appchida.py:149-151 | The 5-year base is never after the 3-year base. The 3-year base is never after the 1-year base, and that one is never after the current price. |
| `Metrics.ShortSeriesSharedBase` | appchida.py:149-151 | For fewer than 252 points, all three windows use position 0 as their base. |
| `Metrics.ThreeHundredPoints` | appchida.py:149-151 | For 300 points, the 1-year base is at position 48, and the 3- and 5-year bases are at position 0. |
| `Metrics.Closes` | appchida.py:148 | The close column has one entry per history row, holding that row's close. |
| `Metrics.AnnualisedReturns` | appchida.py:147-156 | The returns table fails only for an empty history. Here `[]` stands for an empty history that still has a `Close` column. The column-less frame of the error path raises at line 144, outside the `try`, and the guard at line 234 keeps it away. Otherwise each window's figure is calculate_cagr(close at the base position, last close, 1, 3 or 5 years). |
| `Metrics.ShortSeriesReturns` | appchida.py:149-156 | For fewer than 252 points, the three figures are calculate_cagr(first close, last close, years) with years 1, 3 and 5. |

## Left out

- The Streamlit user interface: page set-up, sidebar, containers, tables, markdown and the wording of warnings and errors. A warning or error is modelled only as a boolean that says one was shown.
- The Plotly chart in `create_price_chart`. It only wraps a library.
- The real `yfinance` and `GoogleTranslator` calls. They are parameters: provider answers as `Result` values, and the translator as a total function from a slice to `Option`. So the translator is deterministic, and a single `Err` for the metadata covers every way `yf.Ticker(...).info` can raise.
- The one-hour `st.cache_data` memoisation. The framework's decorator provides it.
- Floating point: the `pct_change` daily-return column that `show_performance_metrics` adds to the caller's DataFrame, the `np.std` and `sqrt(252)` volatility, and the percentage formatting. Prices and growth rates are exact reals, so there is no rounding and no NaN.
- `Metrics.Cagr`: the power `** (1 / years)` is an uninterpreted parameter. Its laws cover only the guard, `years = 1`, an unchanged value and whole-year compounding. Python's complex result for a negative ratio is not modelled.
- `datetime.now()` and the five-year `timedelta` window for the history request. They depend on the clock, and the history arrives as a parameter.
- The ticker list and the display-name dictionary. They are configuration data.
- `is_valid_ticker` (lines 80-87). It is a separate validity probe of the provider: `'longName' in info`, or `False` on any exception. It is outside the modelled core.
- The main area's flow (lines 188-241), except the metadata lookups at lines 198-201, which `StockData.ProjectedDefaultsUnused` covers. That lemma has a consequence for the flow. `get_stock_data` returns an absent sector or industry as `''`. So the `'No disponible'` defaults at lines 199-200 never fire. The tests at lines 206-207 fire only when the provider's own value is `'No disponible'`. `translate_to_spanish('')` then shows "No hay descripción disponible." as the sector or industry.
- `StockData.GetStockData`: metadata values are strings. A provider value that is present but `None`, or not a string, is not modelled.
