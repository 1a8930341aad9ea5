# Energy-consumption simulator and JSON drop-folder bridge, modelled in Dafny

The repository has two programs. This project models the core of each.

**`Simulador.py`, the simulation engine.** It generates meter readings for
twelve measuring points, N1 to N12. Each point's reading comes from its
configuration: a constant, a value drawn from a range, or a value gated by a
probability. An inactive point reads 0. Each reading carries a Spanish,
locale-free display date such as "20 de diciembre de 2025 a las 8:00:00 a.m.
UTC-6". The readings go to a Firestore collection with store-and-forward
behaviour: a batch whose commit fails is appended to a local "unsent" JSON
file. The next send first retries that whole queue. Whatever is committed is
also appended to a local "sent" archive.

The engine runs in one of two modes:
- **Real time:** one batch per tick, forwarded at once, until stopped.
- **Accelerated:** a walk through simulated time. It saves every batch to a
  local output file, then uploads the accumulated records in blocks of 400.
  A stop flag is tested before every tick and before every block.

**`puente.py`, the bridge.** It makes one pass over the `.json` files of an
input directory:
- A record that parses is uploaded with two audit keys. The file is then
  moved to a success directory, renamed after the record's `fecha` and `hora`
  fields. If that name is taken, a microsecond suffix is added.
- A file that does not parse goes to an error directory.
- Any other failure leaves the file in place for the next pass.

How the model is built:
- **Pure parts become functions.** The value rule, the date formatter, the
  naming rule, what saving and sending do to the stores, and what a bridge
  step does to the directories.
- **Step-by-step parts become methods.** The two engine loops and the
  bridge's file loop are methods of the classes `SimulationEngine` and
  `DropFolders`. Each is proved to equal those functions.
- **Properties are lemmas.** The promised properties are proved about the
  functions:
  - the bounds of the value rules;
  - the shape of the date string;
  - conservation of records across the queue and the collection;
  - the sent archive mirroring the collection;
  - the block arithmetic and the effect of a stop;
  - the safe file names;
  - at-least-once upload in the bridge.

Randomness, the clock, the network and the filesystem's failures are not
modelled as behaviour. They become parameters:
- `Draw` holds the samples `random.random()` would give.
- `clock(k)` is the time tick k reads.
- Commit and move outcomes are boolean oracles indexed by call number.
- `StopSignal` gives the flag's value at each numbered test.

Two behaviours of the code worth stating plainly:
- Each point has one configuration, whatever the hour
  (Simulador.py:55-57). `simular_valor` takes a `current_hour` argument
  and never reads it (Simulador.py:82-106).
- A stop during the accelerated upload `break`s out of the block loop
  (Simulador.py:444-445). The records not yet uploaded are not queued as
  unsent; they stay only in the accelerated output file.

## Model

| member | source | states |
|---|---|---|
| Generator.SimulateValue | Simulador.py:82-106 | simular_valor on an explicit draw: inactive gives 0, then the constant, range or probabilistic rule, any other rule 0; its results are stated by SimulateValueCases |
| Generator.Uniform | Simulador.py:98 | random.uniform(a, b) as a + (b - a)*u for a unit sample u; its bounds are stated by UniformBetween |
| Generator.ConfigFromForm | Simulador.py:323-330 | the configuration save_point_config stores from the form's state, rule and two entries; stated by FormEntriesMeaning |
| Generator.SimulateValueCases | Simulador.py:82-106 | an inactive point yields 0, the constant rule yields the constant, an unknown rule yields 0, range and probabilistic values are whole hundredths |
| Generator.Round2 | Simulador.py:98 | round(x, 2) gives a whole number of hundredths within half a hundredth of x |
| Generator.UniformBetween | Simulador.py:98 | random.uniform(a, b) lies between a and b whichever is larger |
| Generator.Round2Monotone | Simulador.py:98 | rounding to hundredths preserves order |
| Generator.Round2KeepsCents | Simulador.py:98 | a value already in hundredths is unchanged by rounding |
| Generator.Round2Between | Simulador.py:103 | rounding a value between two whole-hundredth bounds stays between them |
| Generator.RangeWithinBounds | Simulador.py:97-98 | the range rule yields the rounded draw, within [min, max] when the bounds are whole hundredths |
| Generator.ProbabilisticOutcome | Simulador.py:100-105 | the gate accepts exactly when the first sample is at most prob/100; rejected yields 0, accepted a value in [0, max] |
| Generator.FormEntriesMeaning | Simulador.py:323-330 | after save_point_config the first entry is the constant, the lower bound or the percentage, the second the upper bound |
| Generator.DefaultReadingInRange | Simulador.py:57 | under the starting configuration every reading is between 10 and 100 |
| DateFormat.FormatDate | Simulador.py:74-80 | get_formatted_date: day, month name, year, clock and marker with " UTC-6"; stated by FormatDateOpensWithDate, MeridiemMarker and ClockIdentifiesTime |
| DateFormat.ClockText | Simulador.py:79 | strftime("%I:%M:%S").lstrip("0"); stated by ClockTextShape and ClockFields |
| DateFormat.Hour12 | Simulador.py:79 | the %I hour is 1..12, congruent to the hour mod 12, and 12 exactly at midnight and noon |
| DateFormat.StripPaddedClock | Simulador.py:79 | lstrip("0") of "%I:%M:%S" removes only the hour's leading zero |
| DateFormat.ClockTextShape | Simulador.py:79 | the clock is the hour without leading zero, then two-digit minutes and seconds |
| DateFormat.FormatDateOpensWithDate | Simulador.py:76-80 | the string opens with the day, " de ", MESES[month], " de ", the year and " a las " |
| DateFormat.SuffixMarker | Simulador.py:80 | after any prefix the suffix ends in " UTC-6" and carries a.m. exactly before noon |
| DateFormat.MeridiemMarker | Simulador.py:77-80 | the date string ends in " UTC-6", in " a.m. UTC-6" iff hour < 12 and in " p.m. UTC-6" iff hour >= 12 |
| DateFormat.MidnightAndNoon | Simulador.py:77-79 | hours 0 and 12 both show as "12:", with a.m. only for hour 0 |
| DateFormat.ClockIdentifiesTime | Simulador.py:79-80 | equal clock text and marker imply equal hour, minute and second |
| DateFormat.ClockFields | Simulador.py:79 | equal clock texts have equal %I hours, minutes and seconds |
| Text.StripTwoDigits | Simulador.py:79 | a two-digit field for 1..99 with its zeros stripped is the plain decimal |
| Text.DecimalRoundTrip | Simulador.py:80 | the decimal rendering of a number reads back as that number |
| Text.DecimalInjective | Simulador.py:80 | different numbers have different decimal renderings |
| Text.FixedRoundTrip | Simulador.py:79 | a zero-padded field reads back as its number |
| Calendar.AddSeconds | Simulador.py:436 | datetime plus a timedelta of n seconds, rolling over days, months and years; stated by AddSecondsTimeOfDay and AddSecondsAdditive |
| Calendar.DaysInMonth | Simulador.py:436 | month lengths are between 28 and 31 |
| Calendar.NextMonth | Simulador.py:436 | rolling into the next month lands on day 1 at the same time of day |
| Calendar.AddDays | Simulador.py:436 | moving days forward keeps the time of day |
| Calendar.AddDaysAdditive | Simulador.py:436 | moving a days then b days is moving a + b days |
| Calendar.AddSecondsTimeOfDay | Simulador.py:436 | after adding n seconds the time of day is the old one plus n, modulo a day |
| Calendar.AddSecondsZero | Simulador.py:404 | adding no seconds leaves the start time |
| Calendar.AddSecondsAdditive | Simulador.py:436 | repeated current_time += interval equals one addition of the total from the start |
| Persistence.AfterSave | Simulador.py:108-125 | guardar_local: the file's old list, or an empty one, followed by the data; stated by SaveAppends and SavePayloadShapes |
| Persistence.Retry | Simulador.py:135-152 | the retry of a non-empty unsent queue: on commit the queue goes to the collection and the archive and is emptied; stated by RetryOutcome |
| Persistence.Deliver | Simulador.py:127-168 | enviar_datos: no handle queues the batch; otherwise retry, then commit the batch or queue it; stated by DeliverOutcome, DeliverConserves and DeliverMirrors |
| Persistence.DeliverAll | Simulador.py:394 | successive enviar_datos calls, the j-th with commit outcomes net(j); stated by DeliverAllStep and DeliverAllConserves |
| Persistence.SaveAppends | Simulador.py:108-125 | the saved file holds its old list (empty when absent or undecodable) followed by the data; the old content is a prefix; other files untouched |
| Persistence.SavePayloadShapes | Simulador.py:118-122 | a list is appended element by element, a single record as one element |
| Persistence.RetryOutcome | Simulador.py:135-152 | a non-empty queue whose commit succeeds goes to the archive and the collection and the queue empties; otherwise nothing changes |
| Persistence.DeliverOutcome | Simulador.py:127-168 | the result is true iff there is a handle and the batch commit succeeds; the batch goes to exactly one of archive+collection or queue |
| Persistence.DeliverConserves | Simulador.py:127-168 | queued plus committed records after a call equal those before plus the batch, as multisets |
| Persistence.MirrorsByDelta | Simulador.py:146-148 | appending the same records to archive and collection keeps them mirrored |
| Persistence.MirrorsTransitive | Simulador.py:127-168 | mirroring composes over successive calls |
| Persistence.DeliverMirrors | Simulador.py:127-168 | the archive grows by exactly what the collection receives, in order |
| Persistence.DeliverAllStep | Simulador.py:394 | one more send after a sequence of sends |
| Persistence.DeliverAllConserves | Simulador.py:127-168 | over any number of sends records are conserved and the archive mirrors the collection |
| Persistence.FailedBatchIsForwardedNextTime | Simulador.py:135-164 | a batch whose commit failed is committed first by the next successful call, then its own batch; the queue ends empty |
| Chunking.Chunks | Simulador.py:443-447 | the 400-record blocks of range(0, n, 400) and total_records[i:i + 400]; stated by ChunksIndex, ChunksBounded, ChunksFlatten and ChunksPrefix |
| Chunking.TickCount | Simulador.py:410-415 | the number of ticks before current_time reaches the end without a stop; stated by TickCountMeaning |
| Chunking.FlattenAppend | Simulador.py:429 | concatenating two runs of batches is concatenating their records |
| Chunking.FlattenSingle | Simulador.py:429 | one batch flattens to itself |
| Chunking.FlattenUniformLength | Simulador.py:429 | batches of one width w give w records per batch |
| Chunking.FlattenUniformAt | Simulador.py:429 | element i of batch k is record k*w + i |
| Chunking.NumChunksStep | Simulador.py:444 | a list longer than one block has one block more than its tail |
| Chunking.NumChunksSmall | Simulador.py:444 | a non-empty list of at most one block has one block |
| Chunking.SliceShift | Simulador.py:446 | slicing the tail after one block is slicing the whole one block further |
| Chunking.ChunksIndex | Simulador.py:444-446 | there are ceil(n/400) blocks and block k is total_records[400k : 400k+400] |
| Chunking.ChunksLength | Simulador.py:444 | range(0, n, 400) has ceil(n/400) steps |
| Chunking.ChunksAt | Simulador.py:445-446 | block k is the slice starting at 400k, cut at the end of the records |
| Chunking.ChunksBounded | Simulador.py:443-446 | every block has 1..400 records and every block but the last exactly 400 |
| Chunking.ChunksFlatten | Simulador.py:444-447 | the blocks put back together are the records |
| Chunking.ChunksPrefix | Simulador.py:444-447 | the first m blocks hold exactly the first 400m records |
| Chunking.CeilDivBound | Simulador.py:444 | k < ceil(t/d) iff k*d < t |
| Chunking.TickCountMeaning | Simulador.py:410-415 | tick k happens iff its offset k*interval lies before start+hours |
| Chunking.Passing | Simulador.py:445 | a loop cut by the flag makes at most its full number of rounds |
| Chunking.PassingMeaning | Simulador.py:445 | every round made saw the flag clear; ending early means the next test saw it set |
| Chunking.StopIsFinal | Simulador.py:445 | once the flag is set every later loop makes no rounds |
| Simulator.Records | Simulador.py:380-388 | the records of the first n points at one moment, in point order; stated by RecordsAt |
| Simulator.IntervalOf | Simulador.py:411 | the walk's step: 60 for an empty entry, the number entered, nothing where int() raises; used by RunAccelerated |
| Simulator.AccelSaves | Simulador.py:428 | the files after each walk batch is saved to the accelerated output file; stated by AccelSavesAppend and AccelSavesFrame |
| Simulator.AcceleratedRun | Simulador.py:410-448 | the walk's saves followed by the delivery of the blocks the flag lets through; stated by AcceleratedWithoutStop and the two stopped lemmas |
| Simulator.PointIds | Simulador.py:37 | twelve identifiers, the i-th is N(i+1) |
| Simulator.PointIdInjective | Simulador.py:37 | different points have different identifiers |
| Simulator.PointIdsEnds | Simulador.py:37 | the list runs from "N1" to "N12" |
| Simulator.InitialConfig | Simulador.py:57 | every point is configured, all with the default rule |
| Simulator.TickBatch | Simulador.py:380-388 | a tick's batch has twelve records |
| Simulator.TickBatchShape | Simulador.py:380-388 | record i is point N(i+1) with its own estado, the tick's date and its rule's value; inactive points read 0 |
| Simulator.RecordsAt | Simulador.py:380-388 | record i of the records built so far is point i's |
| Simulator.RealtimeBatches | Simulador.py:376-388 | n real-time ticks give n batches |
| Simulator.RealtimeBatchesByIndex | Simulador.py:376-388 | a sequence whose k-th batch is tick k's is the loop's batch sequence |
| Simulator.AccelBatches | Simulador.py:415-436 | n accelerated ticks give n batches |
| Simulator.AccelBatchesAt | Simulador.py:415-436 | batch k is the tick batch at start + k*interval seconds |
| Simulator.AccelBatchesWidth | Simulador.py:416-425 | every accelerated batch has twelve records |
| Simulator.AccelSavesAppend | Simulador.py:428 | the output file holds its old list followed by every record of the walk |
| Simulator.AccelSavesFrame | Simulador.py:428 | the walk changes no file but the output file |
| Simulator.WalkEnd | Simulador.py:415 | the walk's loop, when it exits, has made the ticks the flag and the horizon allow |
| Simulator.WalkStep | Simulador.py:415 | a tick that finds time left and the flag clear is one of the AccelTicks ticks |
| Simulator.TickAdvance | Simulador.py:436 | adding the interval to tick k's moment gives tick k+1's |
| Simulator.AccelStep | Simulador.py:416-430 | tick k appends its batch to the walk's batches, to the output file and to the accumulated records |
| Simulator.UploadEnd | Simulador.py:444-445 | the upload loop, when it exits, has sent the blocks the flag lets through |
| Simulator.AcceleratedWithoutStop | Simulador.py:410-448 | without a stop the walk has ceil(3600*hours/interval) ticks, 12 records each, and every block is sent |
| Simulator.TickRecord | Simulador.py:415-425 | record i of accelerated batch k is point i's reading at start + k*interval |
| Simulator.AcceleratedRecordAt | Simulador.py:415-436 | record 12k + i of the walk is point i's reading at start + k*interval |
| Simulator.AcceleratedStoppedDuringWalk | Simulador.py:415-445 | a stop during the walk keeps everything local: only the output file changes |
| Simulator.AcceleratedStoppedDuringUpload | Simulador.py:439-448 | a stop during the upload sends exactly the blocks before it, the first 400m records |
| Simulator.SimulationEngine.constructor | Simulador.py:50-57 | the engine starts with the default configuration for every point |
| Simulator.SimulationEngine.SavePointConfig | Simulador.py:316-331 | the point's configuration becomes the one built from the form; nothing else changes |
| Simulator.SimulationEngine.SaveLocal | Simulador.py:108-125 | the files become AfterSave of the old files |
| Simulator.SimulationEngine.StageWrites | Simulador.py:143-145 | one staged write per document, in order |
| Simulator.SimulationEngine.SendData | Simulador.py:127-168 | the new stores and the result are Deliver of the old stores |
| Simulator.SimulationEngine.AssembleBatch | Simulador.py:380-388 | the loop builds exactly the tick batch |
| Simulator.SimulationEngine.RealtimeTick | Simulador.py:377-394 | one more tick delivers the next tick batch, so the stores are those after k+1 ticks |
| Simulator.SimulationEngine.RunRealtime | Simulador.py:373-399 | the stores end as the sequential delivery of every tick batch before the stop |
| Simulator.SimulationEngine.AcceleratedTick | Simulador.py:416-436 | one walk tick appends the next tick batch to the output file and the records and moves the clock to the next tick |
| Simulator.SimulationEngine.WalkTime | Simulador.py:410-437 | the walk accumulates the records of AccelTicks ticks, saves each batch, and counts its flag tests |
| Simulator.SimulationEngine.UploadChunk | Simulador.py:446-447 | one block more is delivered |
| Simulator.SimulationEngine.UploadBlocks | Simulador.py:443-448 | the stores end as the delivery of the blocks the flag lets through |
| Simulator.SimulationEngine.RunAccelerated | Simulador.py:401-450 | an unparsable start or recurrence changes nothing; otherwise the stores end as AcceleratedRun |
| Text.ReplaceCharAt | puente.py:65 | a one-character replace keeps the length and maps each position on its own |
| Text.ReplaceCharRemoves | puente.py:65 | after replacing a by b no a is left and other characters are kept |
| Text.RemoveJsonSuffix | puente.py:124 | removing ".json" from stem + ".json" gives the stem when ".json" does not occur in it |
| Naming.NameBase | puente.py:58-62 | f"{fecha}_{hora}" with the missing keys defaulted; stated by NameDependsOnDateFields and MissingFieldsName |
| Naming.Sanitize | puente.py:65 | the three chained replace calls, which SanitizeAt shows act as one character map; stated by SanitizeAt, SanitizeSafe and SanitizeKeeps |
| Naming.Suffixed | puente.py:122-124 | the name with ".json" removed everywhere, "_", six microsecond digits and ".json"; stated by SuffixedShape and SuffixedEndsWithJson |
| Naming.NameForDate | puente.py:51-71 | a value that is not a dict keeps the original name |
| Naming.SanitizeAt | puente.py:65 | the three replacements map each character on its own and keep the length |
| Naming.SanitizeSafe | puente.py:65 | the sanitised text has no ':', '/' or ' ', and keeps every other character |
| Naming.SanitizeKeeps | puente.py:65 | an already safe text is unchanged |
| Naming.NameShape | puente.py:58-68 | a dict's name is its sanitised fecha_hora plus ".json", with a safe stem |
| Naming.NameDependsOnDateFields | puente.py:58-62 | dicts that agree on fecha and hora get the same name |
| Naming.MissingFieldsName | puente.py:58-68 | a dict with neither key is named "sin_fecha_sin_hora.json" |
| Naming.NameExample | puente.py:58-68 | fecha "2025-12-20" with hora "08:00" gives "2025-12-20_08-00.json" |
| Naming.SanitizeOneColon | puente.py:65 | in text that is safe on both sides of one ':', only that colon is replaced, by '-' |
| Naming.SuffixedShape | puente.py:122-124 | a taken name stem.json becomes stem_ffffff.json, a different name whose digits read back as the microseconds |
| Naming.SuffixedEndsWithJson | puente.py:124 | a suffixed name ends in ".json" |
| Ingestion.Destination | puente.py:118-124 | ruta_destino: the computed name, suffixed when the success directory already has it; stated by SuccessfulFile |
| Ingestion.Step | puente.py:98-139 | one iteration of the file loop over read, upload and move outcomes; stated by StepFrame and the per-case lemmas |
| Ingestion.Run | puente.py:94-139 | the file loop in order, ending when an exception escapes; stated by RunHalts, RunStops, RunInput and RunGrowth |
| Ingestion.JsonEntries | puente.py:85 | the listed names ending in ".json", in listing order; stated by JsonEntriesMeaning |
| Ingestion.Setup | puente.py:79-82 | the three working directories added to those that exist; stated by EnsureDirectories |
| Ingestion.Pass | puente.py:73-141 | procesar_archivos: no connection changes nothing, otherwise setup then the loop over the .json entries; stated by PassEffect |
| Ingestion.Augment | puente.py:109-110 | the uploaded record is the parsed one plus the processing time and the origin name |
| Ingestion.NameUnchangedByAugment | puente.py:118 | the audit keys do not change the computed name |
| Ingestion.MalformedIsQuarantined | puente.py:130-133 | a file that does not parse moves to the error directory under its name and uploads nothing; a failed move ends the pass |
| Ingestion.SuccessfulFile | puente.py:109-128 | an uploaded record is in the collection with its origin; a successful move takes the file out of the input and puts a ".json" name in the success directory |
| Ingestion.FailedFileStays | puente.py:135-139 | an unreadable file, a non-dict or a failed upload changes nothing |
| Ingestion.AtLeastOnce | puente.py:112-127 | upload before move: a failed move leaves the file, and uploading it again adds a second equal copy |
| Ingestion.StepFrame | puente.py:98-139 | a step only removes its own file, only adds to the output directories and the collection, and ends the pass iff the quarantine move failed |
| Ingestion.RunHalts | puente.py:130-133 | the pass ends early exactly when some quarantine move failed |
| Ingestion.RunStops | puente.py:130-133 | after an escaped error the rest of the list is not looked at |
| Ingestion.RunInput | puente.py:94-139 | over distinct files, file j is still in the input directory iff it was there and was not both reached and moved; unlisted names stay as they were |
| Ingestion.RunGrowth | puente.py:94-139 | a pass keeps the directories, only shrinks the input directory, only grows the success and error directories and the collection; every new document names a file of the list and every added success name ends in ".json" |
| Ingestion.JsonEntriesMeaning | puente.py:85 | exactly the listed names ending in ".json" are processed |
| Ingestion.NoJsonEntries | puente.py:85-89 | a listing without ".json" names gives nothing to process |
| Ingestion.PassEffect | puente.py:73-141 | without a connection nothing changes; otherwise the three directories exist and non-.json names stay |
| Ingestion.DropFolders.constructor | puente.py:15-17 | the folders start with the given contents and an empty collection |
| Ingestion.DropFolders.EnsureDirectories | puente.py:79-82 | afterwards the three working directories exist |
| Ingestion.DropFolders.ProcessFile | puente.py:94-139 | one iteration does what Step says |
| Ingestion.DropFolders.ProcessFiles | puente.py:73-141 | the pass does what Pass says |

## Left out

- The tkinter interface of `SimulatorApp` is not modelled: widgets, log_message, update_monitor, load_point_config, toggle_inputs, start_simulation and stop_simulation. They hold no logic beyond feeding the configuration and the run parameters, which become method parameters.
- The monitor refresh every 100 records in the accelerated walk is display only.
- init_firestore and iniciar_firestore become booleans: `dbAvailable` and `connected`. The Firebase SDK is not modelled.
- The Firestore batch, set, commit and add calls become success oracles.
- Firestore's 500-writes-per-batch limit lives inside the commit oracle. The model does not derive that a retried queue of more than 500 records always fails.
- Threading, `threading.Event` and `time.sleep` are not modelled. The stop flag is a `StopSignal`: clear up to a numbered flag test and set from then on.
- The random module is left out. Draws are inputs.
- Generator.Round2: rounds halves up on exact reals. It does not model Python's round-half-even on binary doubles or any other float effect.
- Clock readings and string parsing are inputs:
  - `datetime.now()` becomes `clock(k)`;
  - `strptime` of the start entry becomes an `Option<Timestamp>`;
  - `isoformat()` becomes a processing-time string;
  - `strftime("%f")` becomes a `Micros` value.
- The `int()` parses of the duration entry and of the real-time recurrence happen in start_simulation, outside the model. The accelerated walk parses the recurrence itself; that entry is the `RecurrenceEntry` parameter of RunAccelerated.
- Calendar.AddSeconds: does not model datetime's OverflowError past year 9999.
- Simulator.SimulationEngine.RunAccelerated: requires an entered recurrence to be positive. With 0 and no stop the source's walk never ends; with a negative value it walks backwards.
- Simulator.SimulationEngine.WalkTime: compares elapsed seconds with 3600*hours where the source compares datetimes. The two agree because the current time is always the start plus the elapsed seconds.
- Simulator.SimulationEngine.RunRealtime: stated only for runs that are eventually stopped. Unstopped, the loop never ends.
- A reading stores its timestamp. Its fecha text is `Simulator.Fecha`, the formatted date of that timestamp.
- JSON text is not modelled: encoding, indentation, `ensure_ascii` and the int/float distinction of consumo_kwh.
- A local file holding valid JSON that is not a list is treated like an undecodable one. The source would instead raise on `extend`.
- Write failures of `open(..., 'w')` and of truncating the unsent file are not modelled.
- Directories are modelled as sets of names with no contents. A move onto an existing name replaces that file, which leaves the set unchanged. This happens after the single suffix check fails, or when a name repeats in the error directory.
- `shutil.move` is taken as atomic. A cross-device copy that fails halfway is not modelled.
- `os.makedirs` in setup_directories can fail and abort the pass. Ingestion.DropFolders.EnsureDirectories always succeeds.
- Paths are bare names. `os.path.join`, `os.path.exists` and `os.listdir` are reduced to set membership and a given listing.
- Logging and `exit(1)` are not modelled. A failed connection is a pass that changes nothing and reports an escaped error.
- Naming.NameForDate: the fallback to the original name is modelled but never reached inside the pass. Setting the audit keys on a value that is not a dict already raises, so the file stays.
- `str()` of floats, lists and nested objects is not computed. `Json.JOther` carries that text.
- Naming.SuffixedShape: stated for stems in which ".json" does not occur. `str.replace(".json", "")` removes every occurrence, not just the extension, and Text.Replace does the same, so for a stem such as "a.json.b" the suffixed name is not stem_ffffff.json.
- Strings are sequences of characters. Unicode normalisation and file-system encodings are not modelled.
