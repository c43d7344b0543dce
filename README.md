# ThumbHash codec: the bit-exact half, in Dafny

This project models the core of the C++ ThumbHash codec in
`src/Thumbhash.cpp`. ThumbHash turns an RGBA image of at most 100 by 100
pixels into a hash of a few dozen bytes. The hash holds a header with the
average colour, the scales and the luminance grid, and after the header
the 4-bit AC terms of a truncated cosine transform of the L, P, Q and
(optionally) A channels, two terms to a byte.

The model covers:

- the triangular term count that the encoder and the decoder each compute;
- the scan, DC/AC split, running maximum and remap of `Channel::Encode`;
- the in-place nibble writes of `Channel::Write` and the reads of `Channel::Decode`;
- the packing of `header24`, `header16` and the alpha byte into bytes, and the inverse parse;
- the luminance geometry, and how it is rebuilt from the 3-bit field and two flags;
- the colour transform and its inverse;
- the size logic of `RGBAToThumbHash`;
- the first half of `ThumbHashToRGBA`, up to the reconstruction;
- `ThumbHashToApproximateAspectRatio` and `ThumbHashToAverageRGBA`.

The cosine projection is a parameter. `Channel::Encode`'s double sum over
the pixels is the function `coef(cx, cy)`, and the encoder takes a
`Projector` that maps a buffer to its coefficients.

Floats are exact reals. C's `round` is half away from zero (`Quantisation.Round`),
and `round(limit * w / max(w, h))` is integer round-half-up division. The
project proves that this division equals `Round` of the exact quotient
(`Geometry.RoundDivIsRound`).

The modules follow the structure of the program:

- `Triangle`: the term count and the scan order;
- `Nibbles`: the nibble stream over bytes;
- `Quantisation`: rounding, the running maximum, and quantisation and dequantisation;
- `Channels`: `class Channel`, with fields `nx`, `ny`, `dc`, `scale`, `size` and the `ac` array;
- `Headers`: the bit layout;
- `Geometry`, `Colour` and `Pixels`: the luminance grid, the colour space and the average-colour pass;
- `Fields`: header fields as numbers;
- `Encoder` and `Decoder`: `RGBAToThumbHash`, and `ThumbHashToRGBA` up to the channels;
- `Metadata`: the two header-only queries;
- `RoundTrip`: what the decoder recovers from a hash the encoder wrote.

The imperative parts of the source are methods. They work on arrays, with
the loops of the source and invariants, and each is proved against a
specification function:

- the constructor's and the decoder's counting loops;
- Encode's nested scan and its remap loop;
- Write's OR loop over the hash buffer;
- Decode's fill of `ac_`;
- the pixel loops of `RGBAToThumbHash`.

The bit expressions are functions, and the `RoundTrip` lemmas relate the
two directions.

The average colour weights each component once by `alpha_ / 255`
(src/Thumbhash.cpp:21-24); see `Pixels.Weighted`.

The header is written as the byte sequence `Headers.HeaderBytes`, which is
proved to be the little-endian words of src/Thumbhash.cpp:77-83, and
`Encoder.WriteHeader` copies those bytes with one loop instead of five or
six separate assignments.

## Model

| member | source | states |
|---|---|---|
| Triangle.ScanMembers | src/Thumbhash.cpp:285-287 | a pair (cx, cy) is one of a channel's AC terms exactly when cy < ny, cx >= 1 in row 0 (else cx >= 0), and cx * ny < nx * (ny - cy) |
| Triangle.ScanSorted | src/Thumbhash.cpp:285-287 | the AC terms come strictly in cy-outer, cx-inner order, so none repeats |
| Triangle.DcIsNotAc | src/Thumbhash.cpp:286 | (0, 0) is never an AC term |
| Triangle.SquareTermCount | src/Thumbhash.cpp:285-287 | an n-by-n channel has n(n+1)/2 - 1 AC terms |
| Triangle.FixedTermCounts | src/Thumbhash.cpp:124-128 | the literal counts 5 and 14 passed to Decode are the term counts of 3-by-3 and 5-by-5 channels |
| Triangle.SquareCutoff | src/Thumbhash.cpp:163-178 | for a square channel the cutoff is cx < n - cy, the loop bound of the P, Q and A reconstruction |
| Triangle.CountTerms | src/Thumbhash.cpp:110-114 | the nested counting loop (also the constructor's, :284-288) returns the number of AC terms of the lx-by-ly triangle |
| Triangle.ScanAt | src/Thumbhash.cpp:295-308 | at cursor (cx, cy) of the scan with n terms stored before it, (cx, cy) is the n-th AC term |
| Nibbles.PackNibblesShape | src/Thumbhash.cpp:75-76 | k nibbles packed two to a byte take (k + 1) / 2 bytes, read back slot by slot, and an odd count leaves the last high nibble zero |
| Nibbles.OrSlotEffect | src/Thumbhash.cpp:334 | OR-ing v into a zero slot sets that slot to v and leaves every other slot unchanged |
| Nibbles.OrSlotsEffect | src/Thumbhash.cpp:331-337 | writing v into zero slots from index on reads back as v, and every slot outside the run is unchanged |
| Nibbles.OrSlotsFrame | src/Thumbhash.cpp:331-337 | a run of writes changes no byte outside those holding its slots, and it never clears a bit |
| Nibbles.OrNibble | src/Thumbhash.cpp:334 | the single OR statement updates exactly the byte start + j / 2 |
| Nibbles.ZeroStream | src/Thumbhash.cpp:76 | a buffer that is zero after the header is an empty nibble stream |
| Nibbles.StreamAppend | src/Thumbhash.cpp:86-90 | a write that puts v after the written prefix and keeps every other slot extends the stream by v |
| Nibbles.StreamWrite | src/Thumbhash.cpp:86-90 | the next channel's slots are zero before its write, and after it the stream is extended by its nibbles with the header bytes unchanged |
| Nibbles.StreamBytes | src/Thumbhash.cpp:75-90 | a stream that fills the buffer is the header followed by the nibbles packed two to a byte |
| Nibbles.BytesOfNibbles | src/Thumbhash.cpp:75-90 | the bytes of a stream are determined by its nibbles |
| Nibbles.PackedRead | src/Thumbhash.cpp:324 | packed nibbles read back from slot 0 are the nibbles |
| Nibbles.ReadAfter | src/Thumbhash.cpp:117-123 | a stream read after ac_start header bytes reads the bytes that follow them |
| Nibbles.ReadSlice | src/Thumbhash.cpp:123-128 | reading a run of slots inside a longer read gives that part of the longer read |
| Quantisation.Max | src/Thumbhash.cpp:309 | std::max returns the larger of its two arguments, and it is one of them |
| Quantisation.Round | src/Thumbhash.cpp:63-71 | C round lands within half of x, with ties rounded away from zero |
| Quantisation.RoundInRange | src/Thumbhash.cpp:63-71 | a rounded value of [0, k] lies in [0, k], so each header field fits its bit width |
| Quantisation.MaxAbsIsMaximum | src/Thumbhash.cpp:309 | the running maximum of scale_ bounds every folded-in abs(f) and equals its start or one of them |
| Quantisation.MaxAbsBounded | src/Thumbhash.cpp:309 | a bound on every value and on the start bounds the running maximum |
| Quantisation.NormaliseInUnit | src/Thumbhash.cpp:315-318 | with scale_ the maximum of abs(ac), every remapped AC value lies in [0, 1] |
| Quantisation.RemappedInUnit | src/Thumbhash.cpp:317 | 0.5 + 0.5 / scale * x lies in [0, 1] when abs(x) <= scale |
| Quantisation.Quantise | src/Thumbhash.cpp:334 | round(15 * val) of a val in [0, 1] lies in [0, 15] |
| Quantisation.QuantiseNibble | src/Thumbhash.cpp:334 | the value Write ORs in is a nibble equal to round(15 * val) |
| Quantisation.RemapInverse | src/Thumbhash.cpp:317 | without rounding, the decoder's (d / 7.5 - 1) * scale undoes the encoder's remap exactly |
| Quantisation.QuantisationError | src/Thumbhash.cpp:317 | with rounding, an AC value comes back within scale / 15 of the value encoded |
| Quantisation.DequantiseError | src/Thumbhash.cpp:325 | a nibble within 1/2 of 15 times the remapped x dequantises to within scale / 15 of x |
| Channels.EncodedRanges | src/Thumbhash.cpp:292-320 | for projections in [-1, 1], scale_ lies in [0, 1] and bounds every abs(ac), and there are size_ remapped AC values, each in [0, 1] |
| Channels.Channel.constructor | src/Thumbhash.cpp:281-290 | size_ is the triangular term count and ac_ is a fresh array of that length |
| Channels.Channel.Encode | src/Thumbhash.cpp:292-320 | dc_ becomes f(0, 0), scale_ the running maximum of abs(f) over the AC terms in scan order, and ac_ those projections remapped, each in [0, 1] |
| Channels.Channel.EncodeRow | src/Thumbhash.cpp:296-313 | one row of the scan stores each AC projection at its scan position, folds it into the maximum, and sets dc_ in row 0 |
| Channels.Channel.RemapTerms | src/Thumbhash.cpp:315-318 | when scale_ > 0, every ac_[i] becomes 0.5 + 0.5 / scale_ * ac_[i], and all end up in [0, 1] |
| Channels.Channel.Write | src/Thumbhash.cpp:331-338 | the buffer becomes the old buffer with round(15 * ac_[i]) OR-ed into the slots from index on, and Write returns index + size_ |
| Channels.Channel.Decode | src/Thumbhash.cpp:322-329 | ac_[0..count) becomes the dequantised nibbles of slots index .. index + count - 1, the rest of ac_ is unchanged, and Decode returns index + count |
| Channels.EncodeChannel | src/Thumbhash.cpp:56-59 | a fresh channel holding the encoding of projection coef |
| Headers.Fields24 | src/Thumbhash.cpp:63-67 | every field of header24 sits in its own bits |
| Headers.Fields16 | src/Thumbhash.cpp:68-71 | every field of header16 sits in its own bits |
| Headers.AlphaFields | src/Thumbhash.cpp:82-83 | the alpha DC and scale sit in the low and high nibbles of byte 5 |
| Headers.FromWordsOf | src/Thumbhash.cpp:95-108 | parsing the words of a packed header recovers every field |
| Headers.HeaderBytes | src/Thumbhash.cpp:72-83 | the header takes ac_start bytes: 5, or 6 with alpha |
| Headers.ParseHeaderBytes | src/Thumbhash.cpp:77-83 | a header written at the front of a hash parses back field for field, whatever bytes follow |
| Headers.HeaderBytesParse | src/Thumbhash.cpp:95-108 | the converse: every byte string with a header is the encoding of the header parsed from it |
| Headers.ParsedWords | src/Thumbhash.cpp:95-96 | the words and the alpha byte of a parsed header are the bytes it was parsed from |
| Headers.AlphaBit | src/Thumbhash.cpp:101 | has_alpha (bit 23 of header24) is bit 7 of byte 2, the bit :212 tests |
| Headers.LandscapeBit | src/Thumbhash.cpp:104 | is_landscape (bit 15 of header16) is bit 7 of byte 4, the bit :213 tests |
| Geometry.RoundDivIsRound | src/Thumbhash.cpp:35-36 | integer round-half-up division equals C round of the exact quotient |
| Geometry.EncoderGeometry | src/Thumbhash.cpp:34-36 | lx and ly lie in [1, limit], and the longer side gets the limit (7, or 5 with alpha) |
| Geometry.GeometryField | src/Thumbhash.cpp:68 | the stored count lies in [1, limit], so it fits the 3-bit field |
| Geometry.GeometryRoundTrip | src/Thumbhash.cpp:105-106 | the flags and the field the encoder stores (:68) rebuild its lx and ly, so the decoder's grid is max(3, lx) by max(3, ly) |
| Geometry.Orientation | src/Thumbhash.cpp:35-36 | a wide image gets lx >= ly, and a tall one gets ly >= lx |
| Geometry.RoundDivMonotone | src/Thumbhash.cpp:35-36 | a larger numerator never rounds lower |
| Colour.ToRgbToLpq | src/Thumbhash.cpp:181-183 | the decoder's b, r, g formulas invert the encoder's L, P, Q exactly (:49-51) |
| Colour.ToLpqToRgb | src/Thumbhash.cpp:49-51 | the encoder's formulas invert the decoder's, so the two are mutually inverse |
| Colour.LpqRange | src/Thumbhash.cpp:49-51 | colours of the unit cube give L in [0, 1] and P, Q in [-1, 1] |
| Colour.BlendRange | src/Thumbhash.cpp:46-48 | a blended component lies in [0, 1]; an opaque pixel keeps its own colour and a transparent one takes the average |
| Colour.Clamp01 | src/Thumbhash.cpp:204-206 | max(0, min(1, x)) lies in [0, 1] and is x inside it |
| Pixels.AverageColour | src/Thumbhash.cpp:18-31 | the first loop returns the opacity sum and the weighted colour sums divided by it when it is positive |
| Pixels.SumOpacityBounds | src/Thumbhash.cpp:21-25 | the opacity sum of n pixels lies in [0, n] and reaches n exactly when all are opaque |
| Pixels.HasAlphaIff | src/Thumbhash.cpp:33 | has_alpha holds exactly when some pixel is not fully opaque |
| Pixels.WeightedSumBounds | src/Thumbhash.cpp:22-24 | every weighted colour sum lies between 0 and the opacity sum |
| Pixels.WeightedBounds | src/Thumbhash.cpp:22 | one weighted term lies between 0 and the pixel's opacity |
| Pixels.AverageInCube | src/Thumbhash.cpp:27-31 | the average colour of any image lies in the unit cube |
| Pixels.ChannelValuesInRange | src/Thumbhash.cpp:43-53 | every pixel's L and A lie in [0, 1] and its P and Q in [-1, 1] |
| Fields.Field6 | src/Thumbhash.cpp:63-65 | the 6-bit fields (also :69-70) are (int) round(x) |
| Fields.Field5 | src/Thumbhash.cpp:66 | the 5-bit L scale field is (int) round(x) |
| Fields.Field4 | src/Thumbhash.cpp:82-83 | the alpha nibbles are (int) round(x) |
| Fields.Field3 | src/Thumbhash.cpp:68 | the geometry count as its 3-bit field |
| Fields.GridError | src/Thumbhash.cpp:97-103 | rounding onto a k-step grid and dividing by k again moves a value by at most 1/(2k) |
| Fields.FieldRoundTrip6 | src/Thumbhash.cpp:63 | a 6-bit DC or scale decodes (:97) to within 1/126 of the value encoded |
| Fields.FieldRoundTrip5 | src/Thumbhash.cpp:66 | the L scale decodes (:100) to within 1/62 of the value encoded |
| Fields.FieldRoundTrip4 | src/Thumbhash.cpp:82-83 | the alpha DC and scale decode (:107-108) to within 1/30 of the values encoded |
| Fields.FieldRoundTripSigned | src/Thumbhash.cpp:64-65 | the P and Q DCs decode (:98-99) to within 1/63 of the values encoded |
| Encoder.BuffersInRange | src/Thumbhash.cpp:43-53 | with the average in the unit cube, the L and A buffers lie in [0, 1] and the P and Q buffers in [-1, 1] |
| Encoder.ProjectionsOfInRange | src/Thumbhash.cpp:43-59 | the projections of any image with both sides positive lie in the ranges the header quantises |
| Encoder.ConstantsOfInRange | src/Thumbhash.cpp:56-71 | the channels' DCs and scales lie in the ranges their fields are rounded from |
| Encoder.ConstantsOf | src/Thumbhash.cpp:59 | the alpha constants exist exactly when the image has alpha |
| Encoder.EncodedNibblesLength | src/Thumbhash.cpp:73-74 | there is one nibble per AC term: ac_count |
| Encoder.EncodedHashLength | src/Thumbhash.cpp:72-76 | hash_size_ is ac_start + (ac_count + 1) / 2 |
| Encoder.EncodedHashHeader | src/Thumbhash.cpp:77-83 | the decoder's header parse of a hash gives back the header the encoder wrote (:95-108) |
| Encoder.EncodedHashNibbles | src/Thumbhash.cpp:86-90 | the nibble stream from ac_start on reads back as the AC nibbles the encoder wrote |
| Encoder.EncodedHashGeometry | src/Thumbhash.cpp:68 | the header's flags (:62) and field rebuild the encoder's lx and ly (:105-106) and its luminance grid |
| Encoder.ToChannels | src/Thumbhash.cpp:37-53 | the second loop fills fresh L, P, Q and A arrays with every pixel blended and converted |
| Encoder.WriteHeader | src/Thumbhash.cpp:77-83 | bytes 0 .. ac_start - 1 become the header bytes, and the rest of the buffer is unchanged |
| Encoder.EncodeChannels | src/Thumbhash.cpp:56-59 | L is encoded on max(3, lx) by max(3, ly), P and Q on 3 by 3, and A on 5 by 5 exactly when there is alpha |
| Encoder.ChannelsHeader | src/Thumbhash.cpp:63-71 | the header built from the channels' DC and scale values is the encoded header |
| Encoder.PackChannels | src/Thumbhash.cpp:72-90 | the fresh buffer is the header bytes followed by the L, P, Q and A nibbles packed two to a byte |
| Encoder.WriteNibbles | src/Thumbhash.cpp:86-90 | the four channel writes extend an empty stream by their nibbles in order, with the header unchanged |
| Encoder.WriteChannel | src/Thumbhash.cpp:87-90 | one channel write extends the stream by that channel's nibbles and returns the next slot |
| Encoder.ChannelsNibbles | src/Thumbhash.cpp:86-90 | the nibbles of the encoded channels are the encoded AC nibbles |
| Encoder.RGBAToThumbHash | src/Thumbhash.cpp:9-92 | for an image with both sides positive: there is no hash when width > 100 or height > 100; otherwise the result is a fresh buffer holding the hash of the image |
| Decoder.DecodeFactors | src/Thumbhash.cpp:94-129 | the parsed header, and channels holding the L, P, Q and (only with alpha) A values that FactorsOf defines |
| Decoder.DecodeChannels | src/Thumbhash.cpp:105-129 | recounts the L terms and decodes each channel on its grid from one shared nibble stream |
| Decoder.DecodeStream | src/Thumbhash.cpp:117-129 | the channels read consecutive runs of n, 5, 5 and 14 slots with their scales |
| Decoder.DecodeChroma | src/Thumbhash.cpp:124-125 | P and Q read one five-slot run each with 1.25 times their scales |
| Decoder.DecodeAlpha | src/Thumbhash.cpp:126-129 | A is decoded exactly when the header has alpha, from 14 slots with a_scale |
| Decoder.DecodeChannel | src/Thumbhash.cpp:119-128 | a fresh channel whose ac_ holds the dequantised nibbles of its slots, and the slot after them |
| Decoder.FactorsAtParts | src/Thumbhash.cpp:123-128 | each channel of the factors is read from its own run of slots |
| Decoder.DecodePacked | src/Thumbhash.cpp:95-108 | a header followed by its packed nibbles is decodable, and it parses and reads back exactly |
| Decoder.FactorsOfStream | src/Thumbhash.cpp:123-128 | a stream made of four runs decodes to each run dequantised with its channel's scale |
| Decoder.StreamParts | src/Thumbhash.cpp:118-128 | the slices the decoder reads of a four-run stream are the runs |
| Metadata.AspectRatioFromHeader | src/Thumbhash.cpp:210-217 | the ratio from bytes 2-4 alone equals lx / ly of the full header parse (:104-106) |
| Metadata.AspectRatioDefined | src/Thumbhash.cpp:214-216 | the division is by zero exactly for a landscape hash whose geometry field is zero |
| Metadata.GeometryBits | src/Thumbhash.cpp:211-215 | the 3-bit field of header16 is bits 0-2 of byte 3 |
| Metadata.AverageRgba | src/Thumbhash.cpp:193-208 | every component of the average colour lies in [0, 1] |
| Metadata.AlphaDc | src/Thumbhash.cpp:199 | (hash[5] & 15) / 15 lies in [0, 1] |
| Metadata.AverageFromHeader | src/Thumbhash.cpp:194-202 | the average colour is the inverse colour transform of the full parse's DCs (:97-107), clamped |
| Metadata.AverageOfColour | src/Thumbhash.cpp:200-206 | DCs that are the L, P and Q of a unit-cube colour give that colour back exactly |
| Metadata.Truncated | src/Thumbhash.cpp:274 | conversion of a float of [0, 1] to unsigned char gives 0 below 1.0 and 1 at 1.0 |
| Metadata.AverageRgbaAsWritten | src/Thumbhash.cpp:203-207 | the pixel as written has every component 0 or 1 |
| Metadata.AverageTruncated | src/Thumbhash.cpp:203-207 | for header bytes 0,0,0,0,0 the average is (0, 1/6, 2/3, 1), but the pixel as written is (0, 0, 0, 1) |
| RoundTrip.ProjectedFactorsOf | src/Thumbhash.cpp:86-90 | a hash of projections is decodable, its header parses back, its grid is the encoder's, and the decoder reads exactly the quantised projections (:116-128): the four channels stay aligned |
| RoundTrip.EncodedFactors | src/Thumbhash.cpp:9-92 | decoding the hash of an image (:94-129) gives back the encoder's header and the factors the image defines |
| RoundTrip.DecodedConstants | src/Thumbhash.cpp:97-108 | each decoded DC and scale is within half a grid step of the encoder's (:63-71, 82-83); without alpha the opacity is exactly 1 |
| RoundTrip.DecodedAcError | src/Thumbhash.cpp:325 | every decoded AC value lies within scale / 15 + e of its projection, when the decoded scale is within e |
| RoundTrip.NormalisedError | src/Thumbhash.cpp:315-318 | the remap, quantisation and dequantisation of one channel move each value by at most s / 15 + e |
| RoundTrip.ValueError | src/Thumbhash.cpp:317 | one AC value comes back within s / 15 + e, including the case scale_ = 0 |
| RoundTrip.DequantiseShift | src/Thumbhash.cpp:325 | dequantising with a scale off by at most e moves the value by at most e |
| RoundTrip.DequantisedBoost | src/Thumbhash.cpp:124-125 | dequantising with 1.25 times the scale gives 1.25 times the values |
| RoundTrip.NearBoost | src/Thumbhash.cpp:124-125 | boosting preserves closeness, with the bound boosted too |
| RoundTrip.FactorsError | src/Thumbhash.cpp:116-128 | every decoded L, P, Q and A value lies within its bound of (1.25 times, for P and Q) its projection; A is present exactly with alpha |
| RoundTrip.ChromaError | src/Thumbhash.cpp:124-125 | a P or Q channel decoded with the boosted scale is within 1.25 (s / 15 + e) of 1.25 times its projection |
| RoundTrip.EncodedAspectRatio | src/Thumbhash.cpp:210-217 | the approximate aspect ratio of an image's hash is exactly the encoder's lx / ly (:35-36): at least 1 for a wide image and at most 1 for a tall one |

## Left out

- The cosine projection of `Channel::Encode` (src/Thumbhash.cpp:297-305) is floating-point numerics. It is the parameter `coef` or `Projector`.
- `Encoder.ProjectorBounded` is a hypothesis, not a proof: a projection maps values of [-1, 1] into [-1, 1], and the DC of values in [0, 1] is not negative. It is assumed only for a non-empty width-by-height buffer (`Encoder.IsImage`). Both halves hold for any mean of such a buffer weighted by cosines.
- The reconstruction of `ThumbHashToRGBA` is not modelled, because it is floating-point numerics. This covers the output size (:136-140), the cosine tables and sums (:141-179), the per-pixel colour conversion, and the byte clamping and rounding (:184-187). The colour inverse it uses is `Colour.ToRgb`.
- Single-precision rounding is not modelled: every float is an exact real. This includes the `(float)` casts, the `1.25f` boost and the `/ 7.5f` of Decode.
- `Metadata.ApproximateAspectRatio`: a division by zero (a landscape hash with a zero field) returns None rather than the C++ infinity. The model takes the exact quotient of the two counts; the float rounding is dropped (see the previous line).
- `Encoder.RGBAToThumbHash`: requires both sides to be positive (`Encoder.IsImage`). With a zero side, the projection divides 0 by `width * height` (:305), and the header's `(int) round(...)` of that NaN (:63-70) is undefined behaviour; with both sides zero the geometry also divides by max(0, 0) (:35-36). The source defines no hash for such an image, so the model has none. It also requires `|pixels| == width * height`, which the source's `Image` assumes.
- The output buffer of `RGBAToThumbHash` is allocated zero-filled (`Encoder.PackChannels`). In the source, `new uint8_t[hash_size_]` (:76) is not initialised, and Write ORs into it.
- `Channels.Channel.constructor`: `scale_` starts at 0 (and `dc_` too). The source constructor leaves `scale_` uninitialised (:281-290), yet Encode folds into it.
- `Decoder.DecodeFactors`: requires the hash to hold the header and every nibble the header announces. The source reads without any length check (:94-128).
- The decoder's `a_scale` (:108) reads `hash[5]` even without alpha, and never uses it there. In that case the model parses it as 0.
- PNG input and output (`Image::ReadFromFile`, `Image::WriteToFile`, :232-265) and `examples/Main.cpp` are file plumbing around the codec.
- `new`, leaks, and the ownership of `Channel` and `Image` pointers are not modelled. Each method allocates fresh arrays instead.
- `src/Thumbhash.h` declares `Decode` without the size parameter and `alpha_` as `double`. The model follows the .cpp.

## Findings

| source | as written | input that shows it | evidently intended | confidence | as-written member | corrected member |
|---|---|---|---|---|---|---|
| src/Thumbhash.cpp:203-207 | `ThumbHashToAverageRGBA` passes the clamped floats r, g, b and a of [0, 1] to `RGBAPixel(unsigned char, ...)` (:274), so each component is truncated to 0 or 1 | header bytes 0, 0, 0, 0, 0: the average colour is (0, 1/6, 2/3) and opaque, but the returned pixel is (0, 0, 0, 1) | the average colour with components in [0, 1] (or scaled to bytes), as the reconstruction does at :184-187 | not executed | Metadata.AverageRgbaAsWritten with Metadata.AverageTruncated | Metadata.AverageRgba with Metadata.AverageFromHeader and Metadata.AverageOfColour |
