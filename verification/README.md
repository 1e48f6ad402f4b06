# betsy, verified

betsy compresses textures on the GPU. This Dafny project models its host code: the expander of
`#include` lines in shaders, the inverse tables of the ETC1 encoder, the conversions of pixel
buffers, the arithmetic of sizes and dispatches, the encoders for BC1/BC3, BC4/BC5, EAC and ETC1 as
machines over OpenGL, and the smaller pieces around them. `dafny verify dfyconfig.toml` checks it.

Main results:

- **Includes.** The in-place loop, which splices a file and rescans from the splice point, refines a
  recursive expander: on self-contained files it ends exactly when includes nest finitely deep, with
  the expander's text or its syntax error (`LoopEqualsExpander`). An acyclic include graph of such
  files suffices (`AcyclicHalts`); without self-containment it does not, as two files that make the
  loop run forever show (`AcyclicIsNotEnough`).
- **What is left.** Text before the scan position is final, and every `#include ` in a finished text
  is on a comment line, or belongs to a directive that could not be loaded, or was put together by a
  splice (`LeftoversExplained`). The third case is real: a splice can spell a loadable directive that
  is never looked at (`SpliceSpellsDirective`). It does not occur over files in which no keyword
  follows the start of another (`GuardedLeftovers`), and for a source with one directive that condition
  cannot be weakened (`GuardIsSharp`).
- **Tables.** For every intensity table each of the 16384 entries is written once and holds the
  smallest closest colour of 5 bits, or 4, and its distance, whatever the early exit skips.
- **Images.** The conversion loops write every element of the destination once, pixel by pixel the
  source flipped and swizzled under the row pitch; the buffer that is allocated has just those elements unless its
  size wraps in 64 bits (`BufferHoldsImage`). For the tight pitch exchanging red and blue is an
  involution. `BGRANtoRGBAN` skips padding in bytes with a cursor that counts elements, so it converts
  every image as its pitch says exactly when elements are bytes, rows are not padded, or there are no
  two rows with pixels (`BgraRowsAreFound`; `PaddedWordsAreMissed` is an input on which it does not).
- **Encoders.** `Pipelines` is one specification of what an encoder does to OpenGL; each class is
  proved to do exactly that, and to stay usable whatever is called next. `AnyInterleaving` covers any
  number of encoders, created, driven and destroyed in any interleaving and any order of calls: no
  dispatch samples shader writes that are not yet visible, and nothing is deleted twice.
  `HoldsWhatItWouldAlone` projects such a run to one encoder's calls: run without all others', they
  reach the same stage and leave the same in every texture and program that the encoder created.
- **Lifetimes.** From a fresh object, one init, any sequence of execute and startDownload calls and one
  deinit restore all objects for BC4, BC5, EAC and ETC1, and leave one more for BC1 and four more for
  BC3 (`Lives`); the state they leave is that of the same calls in an interleaving. The same holds of any number of encoders at once (`AllGone`), where nothing is asked
  of the calls but that new names are new.
- **Runs.** The cases of the switch in `main`, from the source image to the downloaded content and, under
  RenderDoc, the content copied to the compressed texture; with ETC2 alpha that is the colours only. The
  download needs the texture-update barrier bit of section 7.12.2 of the OpenGL 4.5 core specification,
  which only `execute03` issues; it is called under RenderDoc only. So the content is determined with
  RenderDoc, or on an implementation that orders `glGetTexImage` after shader writes of its own accord
  (`ordered`), and undefined otherwise.
- **Files.** Strings written with an 8-bit length come back cut to 255 bytes exactly when all bytes
  that did not fit the disk were zero; badbit after writing and eof after reading say whether there
  were such bytes.
- **ygen.** What the generator copies where, by the marks in the file (`RewriteYacc`). Running the generator on its own output changes nothing exactly when no line it moved
  looks like the end marker of the section it went to (`RunningTwiceIsRunningOnce`). Otherwise every
  further run adds the same number of lines (`EveryRunAdds`), as for the file in `FileGrows`.

Where code and documentation differ the code is followed: `rfind` makes comments on the first line
invisible, the opening quote of a directive is skipped unseen, and a `#version` line is removed from
included files only.

The source's classes are classes here, its in-place algorithms work on arrays or fields, and loops
are loops. OpenGL is a value, `Gl.State`, that the class `Gl.Context` updates command by command; what
a shader computes is a term over its uniforms and inputs. Each encoder object has a tag, which names
the owner of what it creates. Numbers that wrap around in the code do so here (`Sizes`).

## Model

| member | source | states |
|---|---|---|
| IncludeParser.Parser.LoadFromFileInto | src/betsy/IncludeParser.cpp:9-36 | refused if the file is missing; else its text, less the first line if that ends in a newline and holds `#version ` |
| IncludeParser.StripVersionMeans | src/betsy/IncludeParser.cpp:27-33 | which part of a text is left, from where its first line ends |
| IncludeParser.VersionIsStripped | src/betsy/IncludeParser.cpp:27-33 | a header that loses its version line, and one whose second line is kept |
| IncludeParser.CommentedMeans | src/betsy/IncludeParser.cpp:69-73 | a keyword is commented if and only if `//` comes right behind the last newline before it, so never on the first line |
| IncludeParser.Parser.LoadFromFile | src/betsy/IncludeParser.cpp:38-59 | the top-level file keeps its version line and is expanded in place |
| IncludeParser.Parser.ExpandAt | src/betsy/IncludeParser.cpp:69-109 | one turn of the loop: splice, skip a comment, skip what cannot be loaded, or reject |
| IncludeParser.Parser.ParseIncludeFiles | src/betsy/IncludeParser.cpp:61-113 | whenever the run halts, its outcome and the text left in the field are the ones reached |
| IncludeExpansion.LoopFollowsExpander | src/betsy/IncludeParser.cpp:66-110 | from any point of any text the loop goes on to emit what the recursive expander emits, or stops with its error |
| IncludeExpansion.DirectiveEndInside | src/betsy/IncludeParser.cpp:75-82 | in a self-contained text a directive closes at the same place whatever follows the text |
| IncludeTheorems.LoopEqualsExpander | src/betsy/IncludeParser.cpp:61-113 | on self-contained files the loop ends if and only if the expander has an answer, and with that answer |
| IncludeTheorems.OneOutcome | src/betsy/IncludeParser.cpp:66-110 | the loop has at most one outcome |
| IncludeTheorems.DeeperIsSame | src/betsy/IncludeParser.cpp:66-110 | the expander's answer does not depend on how deep it may go |
| IncludeTheorems.ExpanderKeepsUp | src/betsy/IncludeParser.cpp:66-110 | a loop that ends within n iterations has includes that nest at most n deep |
| IncludeTheorems.AcyclicHalts | src/betsy/IncludeParser.cpp:66-110 | the loop ends for every source over an acyclic set of self-contained files |
| IncludeTheorems.AcyclicIsNotEnough | src/betsy/IncludeParser.cpp:92-96 | two acyclic files, one cut off in a directive, make the loop swap two texts forever |
| IncludeExample.ShaderExpands | src/betsy/IncludeParser.cpp:9-113 | a shader with a commented and a live directive: the one is stepped over, the other replaced by the stripped file, and the loop ends |
| IncludeLeftovers.AlwaysExplained | src/betsy/IncludeParser.cpp:66-110 | at every iteration each keyword behind the scan position is commented, kept or straddles a splice |
| IncludeLeftovers.EmittedIsFinal | src/betsy/IncludeParser.cpp:94-109 | the scan position is in range and never moves back, and text before it never changes |
| IncludeLeftovers.LeftoversExplained | src/betsy/IncludeParser.cpp:66-113 | the same of every keyword in a finished text |
| IncludeLeftovers.GuardedLeftovers | src/betsy/IncludeParser.cpp:66-113 | when no keyword follows the start of another, only comments and directives that could not be loaded are left |
| IncludeLeftovers.GuardIsSharp | src/betsy/IncludeParser.cpp:66-113 | a source with one directive leaves nothing else over all guarded, self-contained files if and only if it is guarded itself |
| IncludeLeftovers.SpliceSpellsDirective | src/betsy/IncludeParser.cpp:96-109 | otherwise a loadable directive can be left |
| Strings.FirstIsFound | src/betsy/IncludeParser.cpp:66-66 | the search finds exactly the first occurrence |
| Etc1Tables.DecodeIsExpansion | src/betsy/EncoderETC1.cpp:17-29 | decoding replicates high bits, adds the modifier and clamps to a byte |
| Etc1Tables.FindClosest | src/betsy/EncoderETC1.cpp:67-83 | the search with its early exit finds the smallest packed colour at the least distance over all 32 or all 16 packed colours |
| Etc1Tables.ClosestIsNearest | src/betsy/EncoderETC1.cpp:17-29 | closest means that among 5-bit, or else 4-bit, colours, expanded, shifted by the modifier and clamped |
| Etc1Tables.ExactColours | src/betsy/EncoderETC1.cpp:56-83 | without a modifier every colour that 5 bits, or 4 bits, expand to is found at distance 0 |
| Etc1Tables.TurnIsUnique | src/betsy/EncoderETC1.cpp:56-85 | no two slots are written in the same turn of the nested loops |
| Etc1Tables.FillsNext | src/betsy/EncoderETC1.cpp:64-85 | one turn fills its slot and no other |
| Etc1Tables.PackedWord | src/betsy/EncoderETC1.cpp:84-85 | colour and distance are read back from the low 8 bits and the bits above |
| Etc1Tables.CreateFilledEtc1Tables | src/betsy/EncoderETC1.cpp:45-95 | every entry is right, below 2^24 and written once; the two block tables follow |
| CpuImage.CpuImage.RGB8toRGBA8 | src/betsy/CpuImage.cpp:258-281 | source pixel (x, y) of 24 bits becomes destination pixel (x, height - 1 - y), by position, red first and with alpha 255; each element is written once |
| CpuImage.CpuImage.R32toRGBA32 | src/betsy/CpuImage.cpp:283-300 | likewise one channel becomes red, green and blue, with alpha 1.0f |
| CpuImage.CpuImage.RGB32toRGBA32 | src/betsy/CpuImage.cpp:302-321 | likewise three 32-bit channels, red first, with alpha 1.0f |
| CpuImage.CpuImage.BGRANtoRGBAN | src/betsy/CpuImage.cpp:323-348 | likewise four channels of any element size, with the stride that the code really has; alpha stays |
| CpuImage.ImagePixel | src/betsy/CpuImage.cpp:258-348 | pixel (x, k) of the result is source pixel (x, height - 1 - k), converted, and all accesses are in range |
| CpuImage.OnePixel | src/betsy/CpuImage.cpp:269-275 | the bytes 1, 2, 3 of one pixel become 3, 2, 1, 255 |
| CpuImage.SwapTwiceIsIdentity | src/betsy/CpuImage.cpp:323-348 | with a tight pitch the conversion undoes itself |
| CpuImage.BgraRowsAreFound | src/betsy/CpuImage.cpp:323-348 | every image is converted as its pitch says if and only if elements are bytes, rows are not padded, or there are no two rows with pixels |
| CpuImage.PaddedWordsAreMissed | src/betsy/CpuImage.cpp:345-346 | an image of padded 32-bit elements whose second row comes from elsewhere |
| CpuImage.StrideMatters | src/betsy/CpuImage.cpp:258-348 | two strides give the same image of every source if and only if they are equal or there are no two rows with pixels |
| CpuImage.FloatRowsAreFound | src/betsy/CpuImage.cpp:302-321 | the three-channel conversion follows its pitch if and only if that is tight or there are no two rows with pixels |
| CpuImage.FloatWritesFit | src/betsy/CpuImage.cpp:289-298 | a row of the float conversions stays in the buffer if and only if the pitch holds no more pixels than the width |
| CpuImage.CpuImage.constructor | src/betsy/CpuImage.cpp:120-124 | allocates the size that is computed, which is the converted image if and only if it does not wrap |
| CpuImage.BufferHoldsImage | src/betsy/CpuImage.cpp:120-124 | that size is a whole number of elements, and that of the image if and only if it does not wrap in 64 bits |
| Sizes.StagingHoldsCompressed | src/betsy/CpuImage.cpp:219-256 | a block-sized staging texture has the size of the compressed image if and only if that does not wrap in 32 bits |
| Sizes.EncodersDownload | src/betsy/CpuImage.cpp:219-256 | for the formats that the encoders pair: 8 bytes a block with RG32_UINT, 16 with RGBA32_UINT, the compressed size wrapped to 32 bits |
| Sizes.BlocksCover | src/betsy/CpuImage.cpp:233-233 | blocks cover an axis and none is empty; for the three largest sizes there are none |
| Sizes.SourceBytes | src/betsy/CpuImage.cpp:249-255 | loaded images take 4 or 16 bytes a pixel, wrapped to 64 bits |
| Sizes.UploadStrideIsRowSize | src/betsy/EncoderGL.cpp:275-301 | the unpack row length and alignment give OpenGL exactly the row size of the staging buffer, and the rows fill it if and only if its size does not wrap in 64 bits |
| Sizes.Align32IsExact | include/betsy/Encoder.h:21-24 | the 32-bit rounding gives the least multiple if and only if its sum does not wrap |
| Sizes.GroupsTileBlocks | src/betsy/EncoderBC1.cpp:124-138 | work groups tile the grid of 4x4 blocks: every block in one group, no group outside |
| Gl.Context.Upload | src/betsy/EncoderGL.cpp:248-301 | uploading leaves nothing behind but the content of the texture |
| Gl.DumpLeavesNoTrace | src/betsy/EncoderETC1.cpp:313-325 | a staging buffer that is read and destroyed leaves nothing behind |
| Gl.Context.CreateComputePso | src/betsy/EncoderGL.cpp:369-402 | a shader and a program, both new and not 0 |
| Gl.Context.DestroyPso | src/betsy/EncoderGL.cpp:404-410 | both are deleted and the fields cleared |
| Pipelines.PassIsPassed | src/betsy/EncoderBC4.cpp:104-117 | a pass over visible inputs writes its target from their contents and its uniforms, and nothing else |
| Pipelines.Execute00Keeps | src/betsy/EncoderETC1.cpp:213-228 | dithering, at any time, leaves the encoder ready, its writes visible and everyone else's objects alone |
| Pipelines.Execute01Keeps | src/betsy/EncoderBC1.cpp:115-140 | so do the compressing passes, which compute what they should from the dithered or plain source |
| Pipelines.Execute02Keeps | src/betsy/EncoderBC4.cpp:121-136 | so does stitching, which samples both channels behind a barrier |
| Pipelines.Execute03Keeps | src/betsy/EncoderBC1.cpp:156-167 | so does copying; afterwards everything is readable |
| Pipelines.DownloadKeeps | src/betsy/EncoderBC1.cpp:169-180 | the old staging buffer is replaced, and the new one holds the result exactly when that is readable |
| Pipelines.StepOfAnother | README.md:148-171 | a step of one encoder leaves any other ready, with what it has computed and downloaded |
| Lifetimes.InitReady | src/betsy/EncoderBC4.cpp:25-69 | creating everything under fresh names and uploading makes an encoder ready |
| Lifetimes.DeinitLeaves | src/betsy/EncoderBC4.cpp:71-100 | deleting own names once each, in any order, leaves exactly the names not deleted |
| TwoChannel.Build | src/betsy/EncoderEAC.cpp:19-52 | what BC4, BC5 and EAC create fits their passes: no pass writes what it or an earlier one reads |
| TwoChannel.NothingIsLeft | src/betsy/EncoderEAC.cpp:54-78 | what they delete is all they own, each name once |
| EncoderBC4.Encoder.InitResources | src/betsy/EncoderBC4.cpp:25-69 | the new OpenGL state, exactly, in which it owns what its fields name; the encoder is ready |
| EncoderBC4.Encoder.Execute01 | src/betsy/EncoderBC4.cpp:102-119 | the loop over channels is one pass per channel, though it binds source and shader once |
| EncoderBC4.Encoder.Execute02 | src/betsy/EncoderBC4.cpp:121-136 | stitching, for two channels only |
| EncoderBC4.Encoder.Execute03 | src/betsy/EncoderBC4.cpp:138-149 | the result is copied behind the two barrier bits |
| EncoderBC4.Encoder.StartDownload | src/betsy/EncoderBC4.cpp:151-162 | the staging buffer is replaced and filled |
| EncoderBC4.Encoder.DeinitResources | src/betsy/EncoderBC4.cpp:71-100 | the encoder owns nothing any more; only the name of the staging buffer stays in its field |
| EncoderEAC.Encoder.InitResources | src/betsy/EncoderEAC.cpp:19-52 | the new OpenGL state, exactly, in which it owns what its fields name; the encoder is ready |
| EncoderEAC.Encoder.Execute01 | src/betsy/EncoderEAC.cpp:80-95 | one pass per channel |
| EncoderEAC.Encoder.Execute02 | src/betsy/EncoderEAC.cpp:97-112 | stitching, for two channels only |
| EncoderEAC.Encoder.StartDownload | src/betsy/EncoderEAC.cpp:114-125 | the staging buffer is replaced and filled |
| EncoderEAC.Encoder.DeinitResources | src/betsy/EncoderEAC.cpp:54-78 | the encoder owns nothing any more |
| EncoderETC1.Build | src/betsy/EncoderETC1.cpp:99-168 | what it creates fits its passes, with and without dithering and alpha |
| EncoderETC1.Encoder.InitResources | src/betsy/EncoderETC1.cpp:99-168 | the new OpenGL state, exactly, in which it owns what its fields name; fresh names make the dithered texture differ from the source exactly when dithering |
| EncoderETC1.Encoder.Execute00 | src/betsy/EncoderETC1.cpp:213-228 | dithering with its barrier, or nothing |
| EncoderETC1.Encoder.Execute01 | src/betsy/EncoderETC1.cpp:230-283 | colours from the dithered texture with the uniforms of the quality, alpha from the plain source |
| EncoderETC1.Encoder.Execute02 | src/betsy/EncoderETC1.cpp:285-300 | stitching, with alpha only |
| EncoderETC1.Encoder.Execute03 | src/betsy/EncoderETC1.cpp:302-326 | the colours are copied; the dump of the first block leaves nothing behind |
| EncoderETC1.Encoder.StartDownload | src/betsy/EncoderETC1.cpp:328-337 | the staging buffer is replaced and filled |
| EncoderETC1.NothingIsLeft | src/betsy/EncoderETC1.cpp:170-211 | what it deletes is all it owns, each name once |
| EncoderETC1.Encoder.DeinitResources | src/betsy/EncoderETC1.cpp:170-211 | the encoder owns nothing any more; without dithering the field of the dithered texture keeps a dead name |
| EncoderBC1.Build | src/betsy/EncoderBC1.cpp:50-88 | what it creates fits its passes |
| EncoderBC1.Encoder.InitResources | src/betsy/EncoderBC1.cpp:50-88 | the new OpenGL state, exactly, in which it owns what its fields name; the encoder is ready |
| EncoderBC1.Encoder.Execute01 | src/betsy/EncoderBC1.cpp:115-140 | the BC1 pass, and for BC3 the BC4 pass over alpha, with their uniforms |
| EncoderBC1.Encoder.Execute02 | src/betsy/EncoderBC1.cpp:142-154 | stitching, for BC3 only |
| EncoderBC1.Encoder.Execute03 | src/betsy/EncoderBC1.cpp:156-167 | the result is copied behind the two barrier bits |
| EncoderBC1.Encoder.StartDownload | src/betsy/EncoderBC1.cpp:169-180 | the staging buffer is replaced and filled |
| EncoderBC1.SomeAreLeft | src/betsy/EncoderBC1.cpp:90-113 | what it deletes and what it forgets is all it owns, each name once |
| EncoderBC1.Encoder.DeinitResources | src/betsy/EncoderBC1.cpp:90-113 | the tables, and for BC3 the target and the shader and program of alpha, named by their fields, are all that is still owned |
| Interleaving.AnyInterleaving | README.md:148-171 | any interleaving of any encoders' calls: nothing stale is sampled, nothing deleted twice, every encoder stays ready and holds what its own calls have computed so far |
| Interleaving.Conservation | src/betsy/EncoderBC4.cpp:71-100 | once all encoders are gone, the objects are those at the start and those that were forgotten |
| Projection.HoldsWhatItWouldAlone | README.md:148-171 | in any interleaving an encoder reaches the same stage, and everything it created holds the same, as in the run of its own calls alone |
| Interleaving.DownloadOf | src/betsy/EncoderBC4.cpp:151-162 | a finished encoder downloads what it is there to compute, exactly when that is readable |
| Interleaving.DownloadAmongOthers | README.md:148-171 | so does one amid any number of others |
| Calls.TwoChannelWorks | src/betsy/EncoderBC4.cpp:25-162 | the calls of BC4, BC5 and EAC are allowed at any time, and they forget nothing |
| Calls.Etc1Works | src/betsy/EncoderETC1.cpp:99-337 | so are those of ETC1, which forgets nothing |
| Calls.Bc1Works | src/betsy/EncoderBC1.cpp:50-180 | so are those of BC1, which forgets one object, or four as BC3 |
| Fleets.OrderlyIsLegal | README.md:148-171 | runs of the four encoders' own calls are covered by these theorems if new names are new, and forget exactly what BC1 and BC3 leave |
| Fleets.OneMoreOwn | README.md:148-171 | one more call of a class after any run is one more call of the interleaving |
| Fleets.AllGone | src/betsy/EncoderBC1.cpp:90-113 | once all are gone the objects are those at the start, one more for each BC1 and four more for each BC3 |
| Lives.LiveBC4 | src/betsy/EncoderBC4.cpp:25-162 | init, any sequence of execute and startDownload calls, deinit: all objects as before, and the state is the one that the same calls reach in `Fleets` |
| Lives.LiveEAC | src/betsy/EncoderEAC.cpp:19-125 | the same |
| Lives.LiveETC1 | src/betsy/EncoderETC1.cpp:99-337 | the same, with and without dithering and alpha |
| Lives.LiveBC1 | src/betsy/EncoderBC1.cpp:50-180 | the same but for exactly one object left by BC1, four by BC3 |
| Driver.TurnsFinish | src/main.cpp:187-195 | after any number of turns of the loop the encoder is done; its result is readable if and only if execute03 was called |
| Driver.BarrierIsNeeded | src/betsy/EncoderBC1.cpp:147-147 | without the barrier of execute02 the stitching shader would sample unfinished writes |
| Driver.DownloadAtEnd | src/main.cpp:152-160 | the download after the loop holds what is wanted if and only if execute03 was called or the implementation orders reads |
| Driver.CopyAtEnd | src/betsy/EncoderETC1.cpp:302-310 | after the loop under RenderDoc the texture to copy to holds what the last turn computed |
| Runs.RunBC4 | src/main.cpp:247-266 | the cases bc4, bc4_snorm, bc5 and bc5_snorm: the content downloaded, and copied under RenderDoc, by kernels and uniforms; no object left behind |
| Runs.RunEAC | src/main.cpp:218-229 | the cases eac_r11 and eac_rg11, likewise; nothing is copied |
| Runs.RunETC1 | src/main.cpp:182-199 | the cases etc1 and etc2_rgba_etc1, with dithering and the uniforms of every quality; what is copied under RenderDoc is the colours only |
| Runs.RunBC1 | src/main.cpp:230-246 | the cases bc1 and bc3: the content, the kernel by whether colours are dithered, and exactly one object or four left behind |
| CmdLine.StartsWith | src/main.cpp:76-89 | whether one text starts with the other, and the length of their common prefix |
| CmdLine.ParseCmdLine | src/main.cpp:91-150 | accepted if and only if there are enough arguments, every one is acceptable and two are file names; the parameters that result |
| CmdLine.ArgIsDone | src/main.cpp:100-140 | what each argument does, by how it begins |
| CmdLine.AcceptedByText | src/main.cpp:100-149 | which command lines are accepted, by how the arguments begin |
| CmdLine.SwitchesByText | src/main.cpp:114-121 | dithering and RenderDoc are on if and only if they were or an argument begins so |
| CmdLine.LastQualityCounts | src/main.cpp:109-113 | the last quality counts: 0, 1 or 2 by the low byte of its number |
| CmdLine.LastCodecCounts | src/main.cpp:100-108 | the last codec counts |
| CmdLine.FilesByText | src/main.cpp:126-140 | file names are the arguments without two hyphens in front, in order |
| CmdLine.VerdictIgnoresOrder | src/main.cpp:91-150 | permuting the arguments does not change the verdict |
| CmdLine.ResultIgnoresInterleaving | src/main.cpp:91-150 | nor the parameters, if files, codecs and qualities each keep their order |
| CodecEnum.LowerBound | src/AmalgamationEnum.cpp:86-100 | the binary search finds the first name not below the one looked for |
| CodecEnum.Find | src/AmalgamationEnum.cpp:86-100 | finds exactly the names that are present, over any sorted table |
| CodecEnum.ShippedTableIsSorted | src/AmalgamationEnum.cpp:31-46 | the shipped table is sorted in byte order |
| CodecEnum.BcNames | src/AmalgamationEnum.cpp:31-46 | which codec each name from bc1 to bc6h stands for |
| CodecEnum.EtcNames | src/AmalgamationEnum.cpp:31-46 | which codec each name from eac_r11 to etc2_rgba_etc1 stands for |
| CodecEnum.NoOtherCodecs | src/AmalgamationEnum.cpp:86-100 | these thirteen names are found, and no others |
| Sequence.RecentMeansGreater | include/sds/sds_algorithm.h:10-22 | for counters closer than half the range, comparing their reductions compares the counters |
| Sequence.ExactlyOneIsRecent | include/sds/sds_algorithm.h:10-22 | of two distinct values exactly one is more recent, at half distance too |
| Fstream.Stream.OpenFile | src/sds/sds_fstream.cpp:56-97 | what each mode allows, creates and where it starts |
| Fstream.Stream.ReadBytes | src/sds/sds_fstream.cpp:131-152 | what is read, the cursor and the status bits |
| Fstream.Stream.WriteBytes | src/sds/sds_fstream.cpp:154-170 | what is written, the cursor and the status bits |
| Fstream.Stream.SeekTo | src/sds/sds_fstream.cpp:172-197 | the new position, or failbit and the old one |
| FstreamLaws.OpenByMode | src/sds/sds_fstream.cpp:56-97 | which modes read, write, discard and start at the end, and that a missing file stays missing unless it is discarded |
| FstreamLaws.SeekThenTell | src/sds/sds_fstream.cpp:172-211 | a seek from the beginning, the cursor or the end goes there, and `tell` says so; one before the beginning sets failbit and moves nothing |
| FstreamLaws.ReadMeans | src/sds/sds_fstream.cpp:131-146 | the bytes from the cursor on, as many as there are; eof if and only if they are too few |
| FstreamLaws.WriteMeans | src/sds/sds_fstream.cpp:154-165 | the file byte by byte: the data from the cursor on, what was there elsewhere, zeros in a gap |
| FstreamLaws.WrittenIsRead | src/sds/sds_fstream.cpp:131-197 | what is written is read after seeking back, over old bytes and beyond the end |
| Fstream.Stream.ReadText | include/sds/sds_fstream.h:105-115 | a length and that many bytes, zeros where the file ends early |
| Fstream.Stream.WriteText | include/sds/sds_fstream.h:117-123 | a length and at most 255 bytes |
| FstreamLaws.EncodingMeans | include/sds/sds_fstream.h:117-123 | a string is one byte with its length, at most 255, and that many bytes |
| Fstream.RunKeeps | src/sds/sds_fstream.cpp:117-211 | over any run no status bit is reset, and only the stream's own file changes, if it may write |
| Fstream.StuckAfterFailure | src/sds/sds_fstream.cpp:117-211 | after a failure, or when it could not be opened, a stream never moves or tells its position until it is closed |
| Fstream.WriteAllAppends | include/sds/sds_fstream.h:117-123 | the disk holds as much of the strings as fits; badbit says if that is not all |
| Fstream.RoundTrip | include/sds/sds_fstream.h:105-123 | strings written and read back are the same up to 255 bytes if and only if what did not fit was zero; the status bits tell, and the next string is empty |
| Fstream.ReadAtEnd | include/sds/sds_fstream.h:105-115 | at the end of the file there is the empty string and eof |
| Ygen.GetSourceRange | scripts/EnumIterator/ply/ygen.py:13-26 | the two loops over one iterator find the lines between the first start marker and the next end marker; the last line stands in for an end that is missing, and without a start, or with one in the last line, there is no range |
| Ygen.FilterSection | scripts/EnumIterator/ply/ygen.py:28-37 | the lines outside toggled sections |
| YgenLaws.KeptByParity | scripts/EnumIterator/ply/ygen.py:32-36 | a line is kept if and only if it is not marked and the marked lines before it are even in number |
| YgenLaws.PairIsDropped | scripts/EnumIterator/ply/ygen.py:32-36 | a pair of marked lines goes with all between them |
| YgenLaws.StripMeans | scripts/EnumIterator/ply/ygen.py:19-24 | stripping removes the white space at both ends and nothing else |
| YgenLaws.TidyMeans | scripts/EnumIterator/ply/ygen.py:62-62 | a line is written without the white space at its end, and with a newline |
| Ygen.RewriteYacc | scripts/EnumIterator/ply/ygen.py:43-62 | nothing is written if and only if a section does not start before the last line; of three sections in order, the first without `#--! DEBUG` parts goes to the second, and that without `#--! TRACKING` parts to the third, and no other line changes but for white space at its end |
| YgenExample.FileIsRewritten | scripts/EnumIterator/ply/ygen.py:43-62 | a file with a debugging pair and a tracking pair, line by line |
| YgenTheorems.SplicedTidy | scripts/EnumIterator/ply/ygen.py:53-62 | stripping line ends first or last makes no difference |
| YgenTheorems.SecondRun | scripts/EnumIterator/ply/ygen.py:45-60 | how much longer a second run makes the file |
| YgenTheorems.EveryRunAdds | scripts/EnumIterator/ply/ygen.py:43-62 | every run after the first adds the same number of lines: the moved ones from the first that looks like an end marker on |
| YgenTheorems.NothingIsAdded | scripts/EnumIterator/ply/ygen.py:43-62 | none if and only if no moved line looks like an end marker |
| YgenExample.FileGrows | scripts/EnumIterator/ply/ygen.py:22-26 | a file of seven lines to which every further run adds one |
| YgenTheorems.RunningTwiceIsRunningOnce | scripts/EnumIterator/ply/ygen.py:45-62 | a second run changes nothing if and only if no moved line looks like an end marker |

## Left out

- Shaders, and so what the compressed blocks hold: their results are terms.
- The ETC1 intensity table and the block configuration tables: parameters, for every value of which the results hold. Modifiers are unbounded integers.
- ETC2 and BC6H encoders, and the ETC1 path for ETC2 (`bForEtc2`): they would add the same kind of passes.
- The labels that `downloadTo` gives images, and download of formats with other labels than contents (EAC, signed BC4).
- The constructor of `CpuImage`, which dispatches on what FreeImage loads, and `FormatKTX`.
- Image sizes and dispatch counts are in `Sizes` and not in the OpenGL model, where textures have no extent.
- Bindings that creating, uploading and downloading leave behind, shader storage bindings, pixel store state and mapped pointers: every pass binds what it uses.
- Hazards other than reading a texture's shader writes through a sampler or `glGetTexImage`; copying is taken to see them all.
- A second `initResources` on one object: `startDownload` would then delete a staging buffer that is gone.
- Gl.Context.CreateTexture: which name is given is left open; it is only not 0 and not in use.
- IncludeParser.Parser.ParseIncludeFiles: requires that the run halts, because the loop does not return otherwise; `LoopEqualsExpander` and `AcyclicHalts` say when it does.
- IncludeLeftovers.GuardIsSharp: for sources with one directive; with several the guard is still sufficient.
- Projection.HoldsWhatItWouldAlone: says nothing of downloads, which others' barriers can make readable; `DownloadAmongOthers` says what they hold.
- IncludeParser.Parser.LoadFromFile: the file system is a partial map, and files are texts of characters; error messages are not modelled.
- CmdLine.ParseCmdLine: `atoi` is any function, the parameters of a rejected command line and messages are not stated.
- CpuImage.CpuImage.R32toRGBA32: requires a pitch that holds the row and, if there are rows, no further whole pixel, because otherwise the code writes past the buffer (`FloatWritesFit`); likewise RGB32toRGBA32.
- CpuImage.CpuImage.BGRANtoRGBAN: requires a pitch that holds the row, and a source that holds what the cursor reads.
- Sizes.StagingHoldsCompressed: for one slice, depth 1 and row alignment 4, as all callers have.
- Fstream.Stream.ReadBytes: requires an open file once reading is allowed, as the code does after a failed `open`; likewise for writing, and for the reads and writes of `RunKeeps`. The C file is a byte sequence with a cursor: buffering, `flush`, `fsync`, a failing `fseek` that sets the error indicator and switching between reading and writing without a seek are not modelled, nor are typed reads and writes beyond one byte.
- Ygen.RewriteYacc: reading and writing the file, the backup and the message; white space is any class of characters that contains the newline.
- CodecEnum: lookup by value and `isValidValue`.
