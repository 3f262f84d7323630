# A verified model of a software triangle rasterizer

This project models the core of a small C++ software renderer in Dafny. The renderer reads a Wavefront OBJ mesh. It runs a vertex stage and a fragment stage ("shader") for every triangle, rasterizes the triangles into a packed 32-bit colour buffer with a "bigger depth wins" z-buffer, and writes the result as a binary P6 pixel map.

Each module follows one source file:

| module | file | what it holds |
|---|---|---|
| `MatVec` | `src/mat_vec.h`, `src/mat_vec.cpp` | vectors and matrices as `seq<real>` / `seq<seq<real>>`, Laplace determinant, cofactor inversion, cross product |
| `Pixels`, `Numeric`, `DecimalText`, `Wrappers` | (shared) | packed `bv32` colours with `bv8` channels, C++ double-to-integer truncation, the decimal digits `operator<<` prints, `Option` |
| `Raster` | `src/image.h` | `Image<T>` as a class over an `array`, with bounds-checked access and the TGA byte remap |
| `ImageOutput` | `src/renderer.h` | `img_fill` and the byte layout of `img_save` |
| `Rasterizer` | `src/renderer.h` | `reflect` and the Bresenham `draw_line` |
| `Triangles` | `src/renderer.h` | `draw_shaded_triangle` and `draw_triangle_textured_illuminated`, proved against a function over the colour and depth buffers |
| `RenderHelpers` | `src/renderer.cpp` | `modify_channels`, `color_mult`, `clamp`, `look_at`, viewport, projection, barycentric solve |
| `Mesh` | `src/model.h` | the model's lists and its clamped texel lookups |
| `ObjScan`, `ObjParser`, `ObjProperties` | `src/parser.cpp` | the index scanners, the `v`/`vt`/`vn`/`f` readers, `parse_obj`, and what they read back from well-formed lines |
| `Posterization` | `src/posterization.h` | the six palettes |
| `Shaders` | `src/main.cpp` | the flat, posterization, Phong and carcass shaders and the render loop of `main` |

Doubles are modelled as exact `real`s. `std::stof` and `sqrt` are function parameters: `stof` returns `None` where the source would throw. Opening a file is a boolean parameter, and a file's contents are a string parameter. Operations that change state in place are methods on classes (`Raster.Image`, `Mesh.Model`, `Shaders.Shader`). Each of these methods is proved against a function that specifies the new state.

## Model

| member | source | states |
|---|---|---|
| MatVec.Add | src/mat_vec.h:35-40 | the component-wise sum has the length of its operands; its values are stated by DotAddLeft and SubAdd |
| MatVec.Sub | src/mat_vec.h:42-47 | the component-wise difference has the length of its operands |
| MatVec.Scale | src/mat_vec.h:49-63 | scaling keeps the length (both operand orders of the source) |
| MatVec.Div | src/mat_vec.h:66-71 | dividing by a non-zero scalar keeps the length |
| MatVec.Embed | src/mat_vec.h:73-82 | the result has length n, keeps every component of v that fits and holds `fill` in every later slot |
| MatVec.Proj | src/mat_vec.h:84-94 | on a strictly longer vector, the result is its first n components |
| MatVec.ProjEmbed | src/mat_vec.h:73-94 | projecting an embedded vector back to its length returns it, whatever the fill |
| MatVec.WNormalized | src/mat_vec.h:174-178 | a vec4 with non-zero w is mapped to one whose w is 1 |
| MatVec.WNormalizedScales | src/mat_vec.h:174-178 | the w-normalized vector times the old w is the original vector, component by component |
| MatVec.ToHomogeneous | src/mat_vec.h:185-195 | the result is one longer and ends with the scale |
| MatVec.ToRegular | src/mat_vec.h:197-206 | the result drops the last component |
| MatVec.RegularOfHomogeneous | src/mat_vec.h:185-206 | to_regular undoes to_homogeneous for every non-zero scale |
| MatVec.Normalized | src/mat_vec.h:146-148 | each component times the norm gives back the original component |
| MatVec.DotDivLeft | src/mat_vec.h:28-33 | dividing the left operand by s divides the dot product by s |
| MatVec.Dot | src/mat_vec.h:28-33 | the sum of the products, accumulated from the last component down as the loop does; DotIsPrefix equates it with the forward sum, and DotCommutative, DotScaleLeft, DotAddLeft, DotSubLeft and DotDivLeft state its laws |
| MatVec.Norm | src/mat_vec.h:19-24 | the square root of the dot product of v with itself, with the square root a parameter; UnitLength states that a normalised vector has length 1 |
| MatVec.Cross | src/mat_vec.cpp:3-5 | the cross product of two vec3 is a vec3 |
| MatVec.CrossOrthogonal | src/mat_vec.cpp:3-5 | the cross product is orthogonal to both arguments |
| MatVec.CrossAntiCommutative | src/mat_vec.cpp:3-5 | swapping the arguments negates the result |
| MatVec.CrossSelf | src/mat_vec.cpp:3-5 | a vector crossed with itself is zero |
| MatVec.DotCommutative | src/mat_vec.h:28-33 | the dot product is symmetric |
| MatVec.DotScaleLeft | src/mat_vec.h:28-63 | a scalar factor on the left operand moves out of the dot product |
| MatVec.DotSubLeft | src/mat_vec.h:28-47 | the dot product distributes over a difference in the left operand |
| MatVec.DotAddLeft | src/mat_vec.h:28-40 | the dot product distributes over a sum in the left operand |
| MatVec.SubAdd | src/mat_vec.h:35-47 | subtracting the vector that was added gives the first operand back |
| MatVec.MatVecMulAdd | src/mat_vec.h:368-379 | a sum of matrices applied to v is the sum of their images of v |
| MatVec.MatVecMulSub | src/mat_vec.h:381-388 | a difference of matrices applied to v is the difference of their images of v |
| MatVec.MatSubAdd | src/mat_vec.h:368-388 | subtracting the matrix that was added gives the first operand back |
| MatVec.MatVecMulScale | src/mat_vec.h:348-357 | a matrix scaled by s, applied to v, is s times the image of v |
| MatVec.MatDivScale | src/mat_vec.h:348-366 | dividing a matrix scaled by a non-zero s by that s gives the matrix back |
| MatVec.Col | src/mat_vec.h:249-255 | a column has one entry per row |
| MatVec.SetCol | src/mat_vec.h:257-261 | afterwards column idx is v and every other column is unchanged |
| MatVec.Identity | src/mat_vec.h:263-272 | the identity has the requested shape |
| MatVec.Transpose | src/mat_vec.h:312-318 | entry (i, j) of the transpose is entry (j, i) of the matrix |
| MatVec.TransposeTwice | src/mat_vec.h:312-318 | transposing twice gives the matrix back |
| MatVec.Minor | src/mat_vec.h:278-287 | the minor is one row and one column smaller |
| MatVec.MinorTranspose | src/mat_vec.h:278-318 | taking a minor commutes with transposition (row and column swapped) |
| MatVec.CofactorRow | src/mat_vec.h:398-408 | the row-0 cofactors, one per column |
| MatVec.Det | src/mat_vec.h:398-415 | the 1x1 base case and the Laplace expansion along row 0; Det1, Det2 and DetIdentity state its values |
| MatVec.Cofactor | src/mat_vec.h:289-291 | the determinant of the (row, col) minor, negated when row + col is odd; Cofactors2 gives the 2x2 case |
| MatVec.Adjugate | src/mat_vec.h:293-301 | entry (i, j) is the cofactor (i, j), not transposed |
| MatVec.MatDiv | src/mat_vec.h:359-366 | row i is row i of m divided by s |
| MatVec.MatScale | src/mat_vec.h:348-357 | row i is row i of m scaled by s; MatVecMulScale and MatDivScale relate it to the product with a vector and to division |
| MatVec.MatAdd | src/mat_vec.h:368-379 | the sum has the operands' shape; its entries are stated by MatVecMulAdd and MatSubAdd |
| MatVec.MatSub | src/mat_vec.h:381-388 | the difference has the operands' shape; its entries are stated by MatVecMulSub and MatSubAdd |
| MatVec.InvertTranspose | src/mat_vec.h:303-306 | the result is square of the same size |
| MatVec.InverseDenominator | src/mat_vec.h:303-306 | the adjugate's first row dotted with m's first row, which AdjugateRowIsDet proves equal to det(m) |
| MatVec.Invert | src/mat_vec.h:308-310 | the result is square of the same size |
| MatVec.MatVecMul | src/mat_vec.h:322-329 | one component per row |
| MatVec.MatMul | src/mat_vec.h:335-346 | the product has as many rows as a and as many columns as b |
| MatVec.IdentityMatVec | src/mat_vec.h:263-272 | the identity leaves every vector unchanged |
| MatVec.IdentityMatMul | src/mat_vec.h:335-346 | the identity on the left leaves every matrix unchanged |
| MatVec.MinorIdentity | src/mat_vec.h:278-287 | the minor (k, k) of an identity is the smaller identity |
| MatVec.DetIdentity | src/mat_vec.h:398-415 | the determinant of every identity is 1 |
| MatVec.DotIsPrefix | src/mat_vec.h:28-33 | the source's last-to-first accumulation equals the first-to-last sum |
| MatVec.AdjugateRowIsDet | src/mat_vec.h:303-306 | the denominator invert_transpose uses, adjugate row 0 dotted with row 0, is det(m) |
| MatVec.Det1 | src/mat_vec.h:410-415 | the 1x1 determinant is the single entry |
| MatVec.Det2 | src/mat_vec.h:398-415 | the 2x2 determinant in closed form |
| MatVec.Cofactors2 | src/mat_vec.h:289-291 | the four cofactors of a 2x2 matrix, with their signs |
| MatVec.InvertEntry | src/mat_vec.h:303-310 | entry (i, j) of invert() is cofactor (j, i) over the denominator |
| MatVec.Invert2 | src/mat_vec.h:303-310 | for a non-singular 2x2 matrix, invert() times m is the identity |
| MatVec.Adjugate2 | src/mat_vec.h:293-301 | the 2x2 adjugate as the source builds it |
| MatVec.Invert2Closed | src/mat_vec.h:303-310 | the 2x2 inverse equals the closed-form inverse |
| Numeric.AsInt | src/renderer.h:155 | `(int)` of an unsigned value is the value itself up to 2^31 - 1 and negative above it |
| Numeric.Trunc | src/renderer.h:157-161 | a double converted to an integer type rounds toward zero: the result is within 1 of x, on the same side of 0 |
| Numeric.TruncMonotone | src/renderer.h:157-161 | the conversion is monotone, so a bounding box of truncated corners keeps its order |
| Numeric.Abs | src/renderer.h:58 | `std::abs` returns the value or its negation, never negative |
| Pixels.Pack | src/main.cpp:20-22 | a colour built from four bytes has exactly those bytes in memory order (0xAABBGGRR) |
| Pixels.PackChannels | src/main.cpp:20-22 | every colour is the packing of its own four bytes |
| Pixels.ChannelsDetermine | src/main.cpp:20-22 | two colours with the same four bytes are equal |
| Pixels.WithChannel | src/main.cpp:153-156 | a write through a byte pointer into a colour changes that byte and keeps the three others |
| Pixels.FromValues | src/main.cpp:20-22 | the colour with four given byte values has those values |
| Pixels.FromUint | src/renderer.cpp:18-22 | a 32-bit unsigned number as a colour: byte k is the k-th base-256 digit |
| DecimalText.Decimal | src/renderer.h:242 | `operator<<` on an unsigned writes at least one decimal digit and no leading zero |
| DecimalText.DecimalRoundTrip | src/renderer.h:242 | the digits written for n denote n |
| DecimalText.SplitDigits | src/parser.cpp:47-53 | the leading run of digits and the rest make up the string; the rest does not start with a digit |
| DecimalText.SplitDigitsPrefix | src/parser.cpp:47-53 | splitting digits followed by a non-digit gives those digits back |
| Raster.Index | src/image.h:66-69 | pixel (x, y) on a width x height image lies at row-major position y*width + x, inside the buffer |
| Raster.IndexInjective | src/image.h:66-80 | distinct on-image pixels are stored at distinct positions |
| Raster.IndexOnto | src/image.h:60-69 | every buffer position is the position of exactly the pixel (i % width, i / width) |
| Raster.Image.constructor | src/image.h:11-17 | a new image of the given size with every pixel value-initialised |
| Raster.Image.AccessOutOfRange | src/image.h:60-65 | the corrected bounds report: exactly the indices not in the buffer |
| Raster.Image.At | src/image.h:60-65 | `operator[]` as a read returns the pixel in column idx % width of row idx / width, which lies on the image; it is get_pixel of that column and row |
| Raster.Image.Put | src/image.h:60-65 | `operator[]` as an assignment target changes that pixel and no other |
| Raster.Image.GetPixel | src/image.h:66-72 | the stored pixel for an on-image (x, y), `pixel_T()` otherwise |
| Raster.Image.SetPixel | src/image.h:73-80 | an on-image write changes exactly that pixel, which reads back as the new colour; an off-image write changes nothing |
| Raster.Image.NBytes | src/image.h:81-83 | nbytes is width*height*sizeof(pixel_T) converted to `int`: equal to it when it fits, congruent modulo 2^32 otherwise |
| Raster.TgaPixel | src/image.h:26-55 | the colour each TGA layout gives pixel i: blue/red swapped with alpha 0xff for 3 bytes, swapped with alpha copied for 4, grey in red for 1, 0 otherwise |
| Raster.TgaGrey | src/image.h:98-106 | a grey-scale TGA is copied byte for byte; any other layout leaves zeros |
| Raster.FromTga | src/image.h:19-57 | the new image has the TGA's size and pixel i is TgaPixel(tga, i) |
| Raster.FromTgaGrey | src/image.h:90-107 | the new byte image has the TGA's size and pixel i is TgaGrey(tga, i) |
| Raster.OnePastEndUnreported | src/image.h:60-65 | index width*height is out of the buffer but the `idx > height*width` check does not report it |
| ImageOutput.ImgFill | src/renderer.h:229-234 | afterwards every pixel of the buffer is the fill colour |
| ImageOutput.HeaderRoundTrip | src/renderer.h:242 | the P6 header img_save writes announces exactly the canvas width and height |
| ImageOutput.Header | src/renderer.h:242 | "P6", newline, the decimal width, a space, the decimal height, a space, "255", newline; HeaderRoundTrip reads the size back |
| ImageOutput.Body | src/renderer.h:243-248 | three bytes per pixel |
| ImageOutput.BodyLayout | src/renderer.h:243-248 | byte 3i+k of the body is channel k (red, green, blue) of pixel i; alpha is never written |
| ImageOutput.ImgSave | src/renderer.h:236-254 | -1 and nothing written when the file does not open; otherwise 0, the header and the body of the canvas |
| Rasterizer.Reflect | src/renderer.h:35-39 | the reflection has the vector's length |
| Rasterizer.ReflectKeepsAlong | src/renderer.h:35-39 | the reflection keeps the component along the line |
| Rasterizer.ReflectInvolution | src/renderer.h:35-39 | reflecting twice across the same line gives the vector back |
| Rasterizer.Orient | src/renderer.h:57-68 | after the swaps the major axis runs forward over max(|dx|, |dy|) steps, the minor one moves no more, and steep is chosen exactly when |dx| < |dy| |
| Rasterizer.Nearest | src/renderer.h:67-84 | the minor offset after k steps is the one within half a pixel of the exact line |
| Rasterizer.NearestUnique | src/renderer.h:67-84 | no other offset is within half a pixel |
| Rasterizer.NearestBounded | src/renderer.h:67-84 | the minor coordinate never passes the far endpoint's |
| Rasterizer.NearestStep | src/renderer.h:79-83 | one error update (add 2|dy|; if above dx step and subtract 2dx) moves Nearest from step k to k+1 |
| Rasterizer.MinorStep | src/renderer.h:79-83 | the same update expressed for the minor coordinate and its direction |
| Rasterizer.MinorStart | src/renderer.h:70-72 | the loop starts at the near endpoint with zero error |
| Rasterizer.LinePoints | src/renderer.h:73-84 | draw_line plots max(|dx|, |dy|) pixels |
| Rasterizer.LinePoint | src/renderer.h:73-78 | point k of the line: (x0 + k, Minor) or, for a steep line, the swapped pair; LineInBox, LineDistinct and LineNearest state where these points lie |
| Rasterizer.LineInBox | src/renderer.h:73-84 | every plotted pixel lies in the bounding box of the endpoints |
| Rasterizer.LineDistinct | src/renderer.h:73-84 | no pixel is plotted twice |
| Rasterizer.LineNearest | src/renderer.h:73-84 | at every step the plotted pixel is within half a pixel of the exact line |
| Rasterizer.FarEnd | src/renderer.h:63-66 | the far endpoint is one of the two endpoints, and not the near one unless they coincide |
| Rasterizer.LineEnds | src/renderer.h:73 | the line starts at the near endpoint and never plots the far one (`x < x1`) |
| Rasterizer.LineIndices | src/renderer.h:74-78 | every buffer position draw_line writes lies inside the buffer, one per plotted pixel |
| Rasterizer.LineStepIndex | src/renderer.h:74-78 | the position written at step k (transposed when steep) is entry k of LineIndices |
| Rasterizer.PaintSets | src/renderer.h:73-78 | painting sets exactly the listed positions to the colour and keeps every other one |
| Rasterizer.Paint | src/renderer.h:73-78 | the buffer with the colour written at each listed position in turn, keeping its length; PaintSets and PaintExtend state which positions change |
| Rasterizer.PaintExtend | src/renderer.h:73-78 | painting one more position is one more single-pixel update |
| Rasterizer.DrawLine | src/renderer.h:49-86 | -1 and no change with an endpoint off the canvas; otherwise 0 with exactly the line's pixels painted |
| Rasterizer.PlotSpan | src/renderer.h:57-84 | the swap-and-step loop paints exactly LineIndices |
| Rasterizer.PlotAndAdvance | src/renderer.h:73-84 | one loop iteration paints step k and advances error and minor coordinate to step k+1 |
| Rasterizer.PlotPoint | src/renderer.h:74-78 | the plot of step k paints entry k of LineIndices |
| Rasterizer.Advance | src/renderer.h:79-83 | the error update yields ErrorAt and Minor of the next step |
| RenderHelpers.MapRgb | src/renderer.cpp:4-12 | what the comment promises: fn applied to red, green and blue, alpha kept |
| RenderHelpers.ModifyChannels | src/renderer.cpp:6-12 | as written: the loop rewrites bytes 0-2, then only byte 0 is returned, zero-extended |
| RenderHelpers.ModifyChannelsDropsBytes | src/renderer.cpp:6-12 | with the identity as fn the intended result is the colour itself but the returned value is only its red byte |
| RenderHelpers.ScaledChannel | src/renderer.cpp:19-21 | the channel times scale, truncated to `uint32_t` |
| RenderHelpers.ColorMult | src/renderer.cpp:16-23 | as written: red capped at 255, green and blue capped only after wrapping modulo 2^24 and 2^16, alpha 0xff |
| RenderHelpers.GreenCap | src/renderer.cpp:20 | shifting by 8 in 32 bits and capping at 255 << 8 is capping the product modulo 2^24 |
| RenderHelpers.BlueCap | src/renderer.cpp:21 | shifting by 16 in 32 bits and capping at 255 << 16 is capping the product modulo 2^16 |
| RenderHelpers.ColorMultSaturating | src/renderer.cpp:14-15 | the intended color_mult: every channel is the truncated product capped at 255, alpha 0xff |
| RenderHelpers.ColorMultAgreesBelowWrap | src/renderer.cpp:16-23 | the two agree whenever no product reaches the wrap-around |
| RenderHelpers.ColorMultBlueWraps | src/renderer.cpp:21 | full blue times 258 comes out as 254 as written and 255 as intended |
| RenderHelpers.ColorMultByOne | src/renderer.cpp:16-23 | scaling by 1 keeps red, green and blue and sets alpha to 0xff |
| RenderHelpers.Clamp | src/renderer.cpp:25 | the result lies in [low, high], is val inside, low below and high above |
| RenderHelpers.ClampF | src/renderer.cpp:26 | the same for floats |
| RenderHelpers.LookAt | src/renderer.cpp:28-38 | a 4x4 matrix whose last row is (0, 0, 0, 1) |
| RenderHelpers.CameraK | src/renderer.cpp:29 | k: eye - center normalised, a 3-vector; CameraAxesOrthogonal states its relation to i and j |
| RenderHelpers.CameraI | src/renderer.cpp:30 | i: up x k normalised, a 3-vector orthogonal to k by CameraAxesOrthogonal |
| RenderHelpers.CameraJ | src/renderer.cpp:31 | j: k x i normalised, a 3-vector orthogonal to k and i by CameraAxesOrthogonal |
| RenderHelpers.LookAtCenterToOrigin | src/renderer.cpp:28-38 | the matrix sends center (not eye) to the origin |
| RenderHelpers.CameraAxesOrthogonal | src/renderer.cpp:29-31 | the camera axes i, j, k are mutually orthogonal, whatever the square root returns |
| RenderHelpers.Viewport | src/renderer.cpp:42-49 | a 4x4 matrix |
| RenderHelpers.ViewportMaps | src/renderer.cpp:40-49 | (a, b, c, 1) goes to (x + w(a+1)/2, y + h(1-b)/2, d(c+1)/2, 1): y is flipped |
| RenderHelpers.ViewportCorners | src/renderer.cpp:40-49 | the cube corners named in the comment go to the corners of the box |
| RenderHelpers.Projection | src/renderer.cpp:51-58 | a 4x4 matrix |
| RenderHelpers.ProjectionMaps | src/renderer.cpp:51-58 | the projection keeps x, y, z and lowers w by z / c |
| RenderHelpers.Barycentric | src/renderer.cpp:60-92 | the three weights always sum to 1 |
| RenderHelpers.BaryDet | src/renderer.cpp:82 | det_T, twice the signed area of the screen triangle; Barycentric requires it non-zero and WeightsReconstruct uses it |
| RenderHelpers.Weight0 | src/renderer.cpp:84-88 | row 0 of T_inv applied to P - v2, that is ret[0]; WeightsReconstruct and WeightsAtCorners state what the weights mean |
| RenderHelpers.Weight1 | src/renderer.cpp:85-89 | row 1 of T_inv applied to P - v2, that is ret[1]; stated with Weight0 by WeightsReconstruct and WeightsAtCorners |
| RenderHelpers.WeightsReconstruct | src/renderer.cpp:65-73 | the weights reproduce the point through the inverted edge matrix |
| RenderHelpers.BarycentricReconstructs | src/renderer.cpp:77-92 | the weighted sum of the vertices is the pixel (px, py) |
| RenderHelpers.WeightsAtCorners | src/renderer.cpp:65-73 | at each vertex the weights are the matching unit vector |
| RenderHelpers.BarycentricCorners | src/renderer.cpp:77-92 | at a vertex with integer coordinates the weights are the matching unit vector |
| Mesh.Model.constructor | src/model.h:8-27 | a model with empty lists, pointing at the three given maps |
| Mesh.Model.NVerts | src/model.h:10-12 | nverts is the vertex count whenever it fits an `int` |
| Mesh.Model.NFaces | src/model.h:13-15 | nfaces is the corner count divided by three, rounded down, whenever it fits |
| Mesh.SizeToInt | src/model.h:10-15 | a `size_t` returned as `int` is unchanged up to 2^31 - 1 and always in `int` range |
| Mesh.ClampedCoordinate | src/model.h:32-33 | the texel coordinate is size * t clamped from above at size - 1 |
| Mesh.CoordinateInRange | src/model.h:31-34 | on a non-empty map a non-negative coordinate converts to an on-map column or row, however far past 1 it goes |
| Mesh.TextureInBounds | src/model.h:29-34 | any uv with u >= 0 and v <= 1 reads the stored texel at the clamped, flipped position, which lies in the buffer |
| Mesh.Model.GetNormal | src/model.h:36-47 | the normal-map texel decoded to three components in [-1, 1] |
| Mesh.Model.GetTexture | src/model.h:31-34 | the texel of the texture map under the clamped and flipped lookup, unmodified; TextureInBounds shows that the lookup lands on the map |
| Mesh.Model.GetSpecular | src/model.h:49-53 | the specular texel narrowed to `uint8_t` keeps its value modulo 256 |
| Mesh.DecodeComponent | src/model.h:43-45 | a byte decoded as b/255*2-1 lies in [-1, 1] |
| Mesh.DecodeMonotone | src/model.h:43-45 | byte 0 decodes to -1, byte 255 to 1, and larger bytes to larger components |
| ObjScan.IsNum | src/parser.cpp:11-13 | exactly the characters '0' to '9' |
| ObjScan.Scan | src/parser.cpp:26-53 | the shared scan stops on the first stopping character at or after i, or one past the end of the string when there is none |
| ObjScan.ScanAt | src/parser.cpp:26-53 | a run of non-stopping characters ending at a stopping one (or at the end) is where the scan ends |
| ObjScan.ScanLoop | src/parser.cpp:26-53 | the loop with the increment after it computes Scan |
| ObjScan.SkipWsEnd | src/parser.cpp:15-23 | skip_ws leaves the index unchanged off a space; on one it passes the run of spaces and stops on a non-space |
| ObjScan.SkipWs | src/parser.cpp:16-23 | skip_ws computes SkipWsEnd |
| ObjScan.SkipToWs | src/parser.cpp:26-32 | skip_to_ws stops on the next space, or one past the end |
| ObjScan.SkipToFs | src/parser.cpp:37-43 | skip_to_fs stops on the next slash, or one past the end |
| ObjScan.SkipNum | src/parser.cpp:47-53 | as written: past the digits, and one past the end of the string when they reach it |
| ObjScan.NumEnd | src/parser.cpp:45-46 | as its comment intends: the first non-digit after the digits, never past the terminator |
| ObjScan.SkipNumWithin | src/parser.cpp:45-53 | the loop without the trailing increment computes NumEnd |
| ObjScan.NumEndAgrees | src/parser.cpp:47-53 | skip_num as written and as intended agree inside the string and differ by one at its end |
| ObjScan.SkipNumOverRead | src/parser.cpp:47-53 | on "f 1 2 3" skip_num leaves the index at 8, one past the terminator of the 7-character line |
| ObjScan.Substr | src/parser.cpp:60 | `substr(i)` succeeds exactly when i <= size and yields the rest of the line |
| ObjScan.SubstrJoin | src/parser.cpp:60 | the part before i followed by `substr(i)` is the whole line |
| ObjScan.SkipSpaces | src/parser.cpp:112 | `std::stoi` first passes white space, staying in the string |
| ObjScan.DigitRun | src/parser.cpp:112 | a run of digit characters is a numeral |
| ObjScan.Stoi | src/parser.cpp:112 | `std::stoi` yields only values in `int` range |
| ObjScan.StoiDecimal | src/parser.cpp:112 | the decimal text of an `int`-range number followed by a non-digit reads back as that number |
| ObjScan.StoiDigits | src/parser.cpp:112 | digits in `int` range followed by a non-digit read back as their value |
| ObjScan.NumEndAt | src/parser.cpp:45-53 | the corrected scan stops at the end of a digit run |
| ObjScan.StoiNeedsDigit | src/parser.cpp:112 | text that starts with no space, sign or digit throws |
| ObjScan.ReadIndex | src/parser.cpp:111-112 | the stored index is the `stoi` value less one, defined only when the substring and the conversion are |
| ObjParser.ReadCoord | src/parser.cpp:60 | `stof(line.substr(i))` throws past the end, otherwise is the float parser on the rest of the line |
| ObjParser.CoordStarts | src/parser.cpp:57-68 | the three coordinate starts are in order from the keyword on |
| ObjParser.Coords | src/parser.cpp:57-68 | three coordinates when no read throws |
| ObjParser.VertexOf | src/parser.cpp:55-71 | the three coordinates a v line holds, read from position 1; CoordsOfTokens shows they are read from the start of each token |
| ObjParser.NormalOf | src/parser.cpp:87-104 | a normal exactly when the three coordinates read, with three components; each component times the norm gives back the coordinate read when the norm is non-zero, and a zero-norm normal is kept as read (see Left out) |
| ObjParser.TexCoordOf | src/parser.cpp:73-85 | a texture coordinate has z = 0 |
| ObjParser.V | src/parser.cpp:55-71 | v succeeds exactly when the line holds a vertex and appends it to the vertex list; nothing else changes |
| ObjParser.Vn | src/parser.cpp:87-104 | vn succeeds exactly when three coordinates read and appends them divided by their norm when it is non-zero (see Left out); nothing else changes |
| ObjParser.ReadThree | src/parser.cpp:59-68 | the skip/read sequence computes Coords |
| ObjParser.Vt | src/parser.cpp:73-85 | vt appends (u, v, 0) read after the skips the source makes; nothing else changes |
| ObjParser.AddNothing | src/parser.cpp:106-178 | pushing nothing leaves the lists unchanged |
| ObjParser.AddFaceJoin | src/parser.cpp:106-178 | pushing two groups of indices in turn is pushing them at once |
| ObjParser.CornerSpec | src/parser.cpp:110-131 | a corner read without an exception leaves the index on the line or its terminator; it uses the corrected digit scan NumEnd, as admitted under Left out |
| ObjParser.SlashPart | src/parser.cpp:114-131 | the slash block leaves the index on the line or its terminator |
| ObjParser.TexturePart | src/parser.cpp:115-122 | the texture part leaves the index on the line or its terminator |
| ObjParser.NormalPart | src/parser.cpp:123-130 | the normal part leaves the index on the line or its terminator |
| ObjParser.NormalSizes | src/parser.cpp:123-130 | a normal part pushes at most one normal index and nothing else |
| ObjParser.TextureSizes | src/parser.cpp:115-122 | a texture part pushes at most one texture index and nothing else |
| ObjParser.SlashSizes | src/parser.cpp:114-131 | a slash block pushes at most one texture and one normal index |
| ObjParser.CornerSizes | src/parser.cpp:110-131 | a corner pushes one vertex index and at most one of each other kind |
| ObjParser.FaceSizes | src/parser.cpp:106-178 | a face read without an exception pushes three vertex indices, and never more than three of any kind |
| ObjParser.FaceSpec | src/parser.cpp:106-178 | the three corners of f in turn, an exception in one ending the line; FaceSizes bounds what it pushes and FaceRoundTrip reads written faces back |
| ObjParser.Corner | src/parser.cpp:110-131 | the corner's pushes and final index are those of CornerSpec; the maps are unchanged |
| ObjParser.Slash | src/parser.cpp:114-131 | the slash block's pushes and index are those of SlashPart |
| ObjParser.Texture | src/parser.cpp:115-122 | the texture part's pushes and index are those of TexturePart |
| ObjParser.Normal | src/parser.cpp:123-130 | the normal part's pushes and index are those of NormalPart |
| ObjParser.F | src/parser.cpp:106-178 | f succeeds as FaceSpec says and pushes exactly its indices, with the corrected digit scan as admitted under Left out |
| ObjParser.Lines | src/parser.cpp:193-194 | the lines `getline` yields contain no newline, at least one of them |
| ObjParser.Head | src/parser.cpp:195 | `substr(0, 2)`: the first two characters, or the whole line when shorter |
| ObjParser.ParseLine | src/parser.cpp:195-212 | a line whose head is none of "v ", "vt", "vn", "f " changes nothing |
| ObjParser.ParseLinesStop | src/parser.cpp:193-213 | after a line throws, later lines are not read |
| ObjParser.ParseLines | src/parser.cpp:193-213 | the lines in order, each applied with ParseLine, stopping at the first that throws; ParseLinesStop, ParseLinesSnoc and ParseCounts characterise it |
| ObjParser.ParseObj | src/parser.cpp:182-215 | -1 and no change when the file does not open; otherwise every line in turn, 0 at the end or an exception from a reader |
| ObjParser.ParseLinesSnoc | src/parser.cpp:193-213 | reading one more line extends the parse by that line unless an earlier one threw |
| ObjParser.ReadLine | src/parser.cpp:195-212 | one loop iteration dispatches on the head as ParseLine says |
| ObjProperties.HoldsSlice | src/parser.cpp:106-178 | the text facts used for face lines are slices of the line |
| ObjProperties.NumeralRead | src/parser.cpp:111-113 | a numeral followed by a non-digit is stored as its value less one |
| ObjProperties.NumeralEnd | src/parser.cpp:113 | the corrected skip_num passes a numeral and stops after it |
| ObjProperties.NoSlash | src/parser.cpp:114-130 | without a slash neither a slash block nor a normal part reads anything |
| ObjProperties.TextureSkip | src/parser.cpp:120-122 | "//" skips the texture part without pushing |
| ObjProperties.SlashReads | src/parser.cpp:114-131 | the slash block of a corner ("", "/t", "//n", "/t/n") is read as its indices less one |
| ObjProperties.CornerReads | src/parser.cpp:110-131 | a corner after a space and before a space or the end is read as its indices less one |
| ObjProperties.FaceReads | src/parser.cpp:106-178 | a face line of three readable corners is read as their indices less one, to the end of the line |
| ObjProperties.Write | src/parser.cpp:111-112 | an optional index written in decimal denotes the index |
| ObjProperties.WriteCorner | src/parser.cpp:110-131 | a corner written in decimal is readable when its indices fit an `int` |
| ObjProperties.CornerWritten | src/parser.cpp:110-131 | a written corner stores its indices less one |
| ObjProperties.FaceRoundTrip | src/parser.cpp:106-178 | any face written as "f v/t/n v/t/n v/t/n" in any of the four corner forms is read back as its 0-based indices |
| ObjProperties.SpaceThenToken | src/parser.cpp:16-23 | from a space before a token, skip_ws moves onto the token |
| ObjProperties.TokenThenSpace | src/parser.cpp:26-32 | from a token followed by a space, skip_to_ws moves onto the space |
| ObjProperties.TokenStarts | src/parser.cpp:57-68 | after the keyword, the skips land on the starts of the three tokens |
| ObjProperties.CoordsOfTokens | src/parser.cpp:55-104 | v and vn hand the float parser the rest of the line from each of the three token starts |
| ObjProperties.Count | src/parser.cpp:195 | at most one count per line |
| ObjProperties.ParseCounts | src/parser.cpp:182-215 | without an exception parse_obj adds one vertex per "v " line, one texture coordinate per "vt", one normal per "vn", three vertex indices (and at most three of the others) per "f " |
| ObjProperties.LineCounts | src/parser.cpp:195-212 | what one line adds, by its head |
| ObjProperties.JoinLinesOfLines | src/parser.cpp:193-194 | the lines of a file joined with newlines give back the file: nothing is lost |
| ObjProperties.LinesOfJoinLines | src/parser.cpp:193-194 | lines without newlines, joined and split, come back unchanged |
| ObjProperties.LinesPrefix | src/parser.cpp:193-194 | the text before the first newline is the first line |
| Triangles.OnScreen | src/renderer.h:176 | a pixel that passes the "outside the screen" test is on the canvas |
| Triangles.Covered | src/renderer.h:174-175 | the inside test: all three barycentric weights are non-negative, for a triangle whose determinant is non-zero; BoxCovers shows every covered pixel lies in the bounding box |
| Triangles.Depth | src/renderer.h:179 | zdepth: the corner depths mixed with the barycentric weights; ZTest and RasterizeDepth state how it enters the z-buffer |
| Triangles.LowerStep | src/renderer.h:157-158 | one inner-corner update keeps or lowers the coordinate to a truncated corner coordinate |
| Triangles.UpperStep | src/renderer.h:160-161 | one outer-corner update keeps or raises the coordinate to a truncated corner coordinate |
| Triangles.BoxAfter | src/renderer.h:155-162 | after n corners the box starts from (width, height) / (0, 0) and encloses the truncations of those corners |
| Triangles.Bbox | src/renderer.h:155-162 | the box after all three corners; BoundingBox computes it and BoxCovers and OutsideBoxUntouched state what it bounds |
| Triangles.BoundingBox | src/renderer.h:155-162 | the loop over the three corners computes Bbox |
| Triangles.MixBetween | src/renderer.h:179 | with non-negative weights the interpolated value lies between the smallest and the largest corner value |
| Triangles.BoxCovers | src/renderer.h:155-175 | every pixel the triangle covers lies in its bounding box, so the walk visits it |
| Triangles.Step | src/renderer.h:174-186 | one pixel of the walk keeps the buffers' sizes |
| Triangles.Rasterize | src/renderer.h:170-188 | the walk over the whole box keeps the buffers' sizes |
| Triangles.EvolvesTrans | src/renderer.h:170-188 | the per-pixel guarantees compose across steps |
| Triangles.StepEvolves | src/renderer.h:174-186 | one pixel step changes only a covered, on-screen pixel, raising its depth to the interpolated depth |
| Triangles.ColumnsEvolves | src/renderer.h:171-188 | the same across any number of columns |
| Triangles.RasterizeEvolves | src/renderer.h:170-188 | no depth decreases; a colour changes only where the depth strictly increased; every changed pixel is covered and holds its interpolated depth |
| Triangles.OutsideBoxUntouched | src/renderer.h:155-188 | pixels outside the bounding box keep their colour and depth |
| Triangles.ZTest | src/renderer.h:179-180 | the depth test never lowers the stored depth |
| Triangles.RasterizeDepth | src/renderer.h:170-188 | with a fragment stage that never discards, every pixel ends with the z-buffer result: the interpolated depth where covered and nearer, the old one elsewhere |
| Triangles.PaintedTrans | src/renderer.h:170-188 | the painting guarantee composes across steps |
| Triangles.StepPaints | src/renderer.h:179-186 | one pixel step writes only a colour the fragment stage kept there |
| Triangles.ColumnsPaints | src/renderer.h:171-188 | the same across any number of columns |
| Triangles.RasterizePaints | src/renderer.h:151-189 | every pixel whose depth changed is covered and holds a colour the fragment stage produced for its weights and did not discard |
| Triangles.ShadePixel | src/renderer.h:174-186 | the inner-loop body changes the buffers and `color` as Step says |
| Triangles.DrawShadedTriangle | src/renderer.h:151-189 | the two loops leave the canvas and z-buffer equal to Rasterize of the old ones |
| Triangles.TexelInRange | src/renderer.h:135-137 | inside the triangle the interpolated texture coordinates address a texel of the texture |
| Triangles.Intensity | src/renderer.h:126-127 | lighting_intensity: the barycentric mix of the corner normals dotted with the light vector; Textured skips the pixel when it is not positive |
| Triangles.TexelAt | src/renderer.h:135-137 | the texel at row texture_y and column texture_x of the texture; TexelAtIndex and TexelInRange show the read is on the texture inside the triangle |
| Triangles.TexelAtIndex | src/renderer.h:137 | the texel read is the one at row TexelY, column TexelX |
| Triangles.Scaled | src/renderer.h:140-142 | the scaled channel converted to `pixel_T` is a 32-bit value |
| Triangles.Wrap | src/renderer.h:138-142 | `uint32_t` arithmetic: the value itself when in range |
| Triangles.LitExact | src/renderer.h:138-142 | byte-sized terms added to 0xff000000 land in red, green and blue under an opaque alpha |
| Triangles.IlluminateExact | src/renderer.h:138-142 | with an intensity in (0, 1] each colour channel is the texel channel times the intensity, truncated; alpha is 0xff |
| Triangles.Illuminate | src/renderer.h:138-142 | illuminated_color: each channel times the intensity converted to uint32_t, shifted into place over 0xff000000; IlluminateExact gives its bytes for intensities in (0, 1] |
| Triangles.Lit | src/renderer.h:138-142 | the three additions to 0xff000000 in 32-bit unsigned arithmetic; LitExact shows byte-sized terms land in red, green and blue without carry |
| Triangles.ScaledByte | src/renderer.h:140-142 | a byte scaled by an intensity in (0, 1] truncates to a byte |
| Triangles.Textured | src/renderer.h:126-144 | the texturing stage skips a pixel exactly when the interpolated lighting intensity is not positive |
| Triangles.TexturedAt | src/renderer.h:126-144 | otherwise the pixel gets the illuminated texel |
| Triangles.StepCovered | src/renderer.h:174-186 | a covered, on-screen pixel is written exactly when it is nearer and not discarded |
| Triangles.LightPixel | src/renderer.h:120-146 | the inner-loop body of the textured walk changes the buffers as Step with Textured says |
| Triangles.LightCovered | src/renderer.h:126-146 | the part after the coverage and screen tests, the same |
| Triangles.FetchTexel | src/renderer.h:135-137 | the texture read returns TexelAt |
| Triangles.DrawTriangleTexturedIlluminated | src/renderer.h:92-149 | the walk leaves the canvas and z-buffer equal to Rasterize with the Textured stage |
| Posterization.IncreasingSorted | src/posterization.h:3-44 | bounds that rise from each entry to the next are sorted throughout |
| Posterization.BoundsBelowOne | src/posterization.h:3-44 | in a palette of this shape no bound exceeds 1.0 and only the last reaches it |
| Posterization.CoolGradient | src/posterization.h:3-10 | six opaque bands with rising bounds ending at 1.0 |
| Posterization.WarmGradient | src/posterization.h:11-18 | six opaque bands with rising bounds ending at 1.0 |
| Posterization.GrayTones | src/posterization.h:19-24 | four opaque bands with rising bounds ending at 1.0 |
| Posterization.DarkBlueToOrange | src/posterization.h:25-30 | four opaque bands with rising bounds ending at 1.0 |
| Posterization.RandomColors | src/posterization.h:31-39 | seven opaque bands with rising bounds ending at 1.0 |
| Posterization.LowBandPass | src/posterization.h:40-44 | three opaque bands with rising bounds ending at 1.0 |
| Shaders.DefaultPalette | src/main.cpp:79 | the starting palette is one opaque band up to 1.0 |
| Shaders.FirstAbove | src/main.cpp:111-116 | the search finds the first entry whose bound lies strictly above the diffuse term, or reports that none does |
| Shaders.Select | src/main.cpp:111-116 | the index of the entry the loop stops on, if any, always inside the palette; SelectInBand, SelectBelowOne, SelectAtOne and SelectMonotone characterise it |
| Shaders.PosterColor | src/main.cpp:111-118 | the selected entry's colour, or 0xffc0c0c0 when no bound lies above the diffuse term; PosterizeFragment computes it |
| Shaders.PosterizeFragment | src/main.cpp:98-119 | the search loop never discards and leaves PosterColor: the first band above the diffuse term, else 0xffc0c0c0 |
| Shaders.SelectInBand | src/main.cpp:111-116 | on a sorted palette entry i is selected exactly when the diffuse term lies in its band: below its bound and not below the previous one |
| Shaders.SelectBelowOne | src/main.cpp:111-116 | every diffuse term below 1.0 selects an entry of a well-formed palette, so the colour is opaque |
| Shaders.SelectAtOne | src/main.cpp:111-118 | a diffuse term of 1.0 or more falls through to 0xffc0c0c0 |
| Shaders.SelectMonotone | src/main.cpp:111-116 | a larger diffuse term selects an entry no earlier in the palette |
| Shaders.Unit | src/mat_vec.h:146-148 | `normalized()` is defined exactly when the norm is not zero and scales back to the vector |
| Shaders.Diffuse | src/main.cpp:101-106 | the diffuse term is never negative and is 0 or the dot product of the transformed unit normal and unit light direction |
| Shaders.LitPair | src/main.cpp:101-104 | the transformed normal and light are 3-vectors |
| Shaders.DiffuseAtMostOne | src/main.cpp:101-106 | with a true square root the diffuse term never exceeds 1 |
| Shaders.UnitLength | src/mat_vec.h:146-148 | a normalised vector has length 1 |
| Shaders.UnitDot | src/main.cpp:106 | two unit vectors have a dot product of at most 1 |
| Shaders.PhongByteExact | src/main.cpp:153-156 | with ambient 5 and a diffuse term in [0, 1] each byte is the truncated sum, from 5 to 229 |
| Shaders.PhongByte | src/main.cpp:153-156 | ambient + 0xe0 * diffuse truncated and reduced modulo 256; PhongByteExact and PhongInRange show that main's settings never wrap |
| Shaders.PhongInRange | src/main.cpp:142-158 | with a true square root and ambient 5 every Phong byte is the truncated sum: the conversion never wraps |
| Shaders.PhongColor | src/main.cpp:153-156 | red, green and blue all receive the Phong byte; alpha keeps what `color` held |
| Shaders.PhongWrite | src/main.cpp:153-156 | the byte loop through the pointer into `color` computes PhongColor |
| Shaders.ShadeKeeps | src/main.cpp:68-197 | every colour a shader keeps is one of its colours (flat grey, a palette colour or the fall-through, a grey, the edge colour), the carcass shader keeps only pixels near an edge, and only the carcass shader ever discards |
| Shaders.NearEdge | src/main.cpp:187 | the carcass test: some weight is at most 0.005 |
| Shaders.Shade | src/main.cpp:68-197 | each shader's fragment rule: flat grey, the posterized colour, the Phong colour, or the edge colour near an edge and a discard elsewhere; ShadeKeeps states what it keeps |
| Shaders.ClipPoint | src/main.cpp:62-63 | the clip-space point is a 4-vector |
| Shaders.ScreenPoint | src/main.cpp:62-65 | the screen point is a 4-vector |
| Shaders.CornerVertex | src/main.cpp:62 | the vertex of a readable corner is a 3-vector |
| Shaders.CornerNormal | src/main.cpp:59 | the row written into `varying_nrm` is a 3-vector |
| Shaders.CornerUv | src/main.cpp:60 | the row written into `varying_uv` is the first two texture coordinates |
| Shaders.CornerPos | src/main.cpp:63 | the row written into `varying_pos` is a 3-vector |
| Shaders.ScreenCorner | src/main.cpp:65 | what `vertex` returns has w = 1 |
| Shaders.Zeros | src/main.cpp:54-56 | a value-initialised varying matrix has three rows |
| Shaders.Shader.constructor | src/main.cpp:75-85 | a shader with main's uniforms, the default palette and zeroed varyings |
| Shaders.Shader.Vertex | src/main.cpp:87-96 | `vertex` writes row k of each varying matrix and returns the w-normalised screen point; nothing else changes |
| Shaders.Shader.Fragment | src/main.cpp:68-197 | `fragment` of each shader decides as Shade says |
| Shaders.FaceTriangle | src/main.cpp:417-420 | a face's screen triangle has three corners |
| Shaders.FaceNormals | src/main.cpp:417-420 | after the three vertex calls `varying_nrm` is 3x3 |
| Shaders.FaceAt | src/main.cpp:411 | every face the loop visits starts at a multiple of 3 below the corner count and can be drawn |
| Shaders.FaceOf | src/main.cpp:411-421 | face f of the mesh is a drawable screen triangle with a 3x3 normal matrix |
| Shaders.FacesPrefixGrow | src/main.cpp:411-421 | the next face of the mesh extends the list of faces drawn so far |
| Shaders.RenderFaces | src/main.cpp:411-427 | drawing the faces in turn keeps the buffers' sizes |
| Shaders.PaintedRepainted | src/renderer.h:151-189 | a walk that paints only what the shader may leave leaves only shader colours where the depth changed |
| Shaders.RepaintedTrans | src/main.cpp:411-427 | that guarantee composes across faces |
| Shaders.RenderFacesPaints | src/main.cpp:411-427 | after the whole render no depth has decreased, a colour changed only where the depth changed, and every such pixel holds one of the shader's colours |
| Shaders.ZFold | src/renderer.h:179-180 | the z-test of every face in turn never lowers the depth |
| Shaders.RenderFacesDepth | src/main.cpp:411-427 | with any shader but the carcass one, the final z-buffer is the z-test of each face in turn: it does not depend on the shader |
| Shaders.VertexStage | src/main.cpp:417-420 | the inner loop leaves `varying_nrm` as FaceNormals and returns the face's screen triangle |
| Shaders.ShadeFace | src/main.cpp:417-421 | the vertex stage and draw_shaded_triangle of one face draw the next face of the mesh |
| Shaders.RenderFace | src/main.cpp:411-427 | one iteration of the render loop extends RenderFaces by one face |
| Shaders.RenderModel | src/main.cpp:409-427 | the loop draws all ceil(|face_vrtx| / 3) faces of the mesh in order: the buffers end as RenderFaces of them |
| Shaders.ClearScene | src/main.cpp:347-350 | the canvas is filled with opaque black and the z-buffer with the lowest double |

## Left out

- `MatVec.Invert2`: the left-inverse law `invert() * M == identity()` is proved for 2x2 matrices only. For 3x3 and 4x4 the model proves the entry formula (`MatVec.InvertEntry`) and that the adjugate's first row dotted with M's first row is the determinant (`MatVec.AdjugateRowIsDet`), not the full identity.
- `Raster.Image.constructor`: requires `width * height < 2^32`, and `Raster.Image.Valid` keeps that bound. The source computes `width*height` in `unsigned int` for the allocation (src/image.h:11-17) and for the bounds check of `operator[]` (src/image.h:61). An image whose pixel count wraps would get a buffer of `(width*height) mod 2^32` pixels, smaller than the pixels that `get_pixel` and `set_pixel` accept. The model does not describe such images.
- `ObjParser.F`: f, `ObjParser.CornerSpec` and `ObjProperties.FaceRoundTrip` use the corrected digit scan `ObjScan.NumEnd`, not the `skip_num` the source calls (src/parser.cpp:113, :119, :128 and the same steps for corners 2 and 3). The two scans differ only when a corner's digits run to the end of the line. There `skip_num` leaves the index at `size()+1`, and the next `line[idx]` reads past the terminator, which is undefined in C++. `ObjScan.Peek` reads NUL at and beyond the terminator. `ObjScan.SkipNum` and `ObjScan.SkipNumOverRead` model the as-written scan; see Findings.
- `ObjParser.Vn`: a `vn` line whose norm is zero (with a true square root, one whose three coordinates are all zero) is stored unnormalised, as read, by `ObjParser.NormalOf`. The source divides by a zero norm there (src/parser.cpp:103), so every component is NaN. Downstream the difference shows: a NaN corner normal makes the interpolated surface normal NaN and `std::max(0.0, n*l)` gives 0 (src/main.cpp:106, :148), while the model mixes the zero normal with the other two corners and usually gets a non-zero diffuse term.
- `Raster.Image.Put`: requires `idx < width * height`. It does not model the unflagged write one past the end that the check at src/image.h:60-65 lets through; see Findings.
- `Shaders.PhongByte`: a channel value outside [0, 256) is reduced modulo 256. In C++ the double to `uint8_t` conversion is undefined there. `Shaders.PhongInRange` shows that main's settings never reach that case.
- `Triangles.Rasterize`: a triangle whose screen projection is degenerate (barycentric determinant 0) draws nothing. The source divides by zero there and gets infinities or NaN, whose comparisons decide what is drawn.
- `Mesh.Model.NVerts`: the `size_t` to `int` conversion is modelled as reduction into the 32-bit range; the ensures states the exact value only for sizes up to `INT_MAX`. `Mesh.Model.NFaces` is treated the same way.
- File and image I/O: opening and reading the OBJ file, writing the P6 file, and reading and writing TGA files are not modelled. The open flag, the file contents and the TGA byte array are parameters. `img_save` returns its bytes.
- Floating point: doubles and floats are exact reals, so rounding, infinities and NaN are absent. The palette bounds are `float` in the source and exact reals here.
- `std::stof`, `sqrt`, `norm`/`normalized` and `std::pow` are not defined here. `stof` and `sqrt` are parameters, and normalisation is defined through the `sqrt` parameter. Properties that need a true square root assume one through `Shaders.IsSqrt`.
- `DepthShader` is not modelled: its fragment has no return statement, which is undefined behaviour (src/main.cpp:36-51).
- `CutoffShader` and `TextureTangentNormalShader` are not modelled, nor is the tangent-basis reconstruction (src/main.cpp:200-309). `draw_triangle_textured_illuminated` is modelled with its texture and light lookups.
- Driver code is not modelled: the console summaries and timing, the rescaling of the model, the `operator<<` printers, and `draw_model`'s texture-coordinate glue (src/renderer.h:190-227).
- The carcass shader's diffuse term is not modelled. It is computed and never used.
- The uninitialised `color` that `draw_shaded_triangle` hands to the fragment stage is the parameter `color0`. The render loop takes one per face.
- `std::numeric_limits<double>::lowest()` is the parameter `lowest` of `Shaders.ClearScene`.
- A `v`, `vt` or `vn` line whose number `stof` cannot read makes `stof` throw in the source. The model reports `Threw` from `ObjParser.ParseObj` and keeps what was pushed before that line.
- src/test.cpp, src/testing/lookat.cpp and src/parser.h are not part of this model. They are a smoke driver, an unbuilt snippet and declarations only.

## Findings

| source | as written | input that shows it | evidently intended | confidence | as-written member | corrected member |
|---|---|---|---|---|---|---|
| src/image.h:60-65 | `operator[]` flags an index only when it is greater than `width*height` | `idx == width*height` is accepted and reads or writes one element past the buffer | flag every `idx >= width*height` | high, not executed | Raster.OnePastEndUnreported | Raster.Image.AccessOutOfRange |
| src/renderer.cpp:6-12 | `modify_channels` applies `fn` to bytes 0-2 but returns only the new byte 0, zero-extended | colour `0xffa0b0c0` with the identity function returns `0x000000c0` | return the whole colour with bytes 0-2 replaced | high, not executed | RenderHelpers.ModifyChannelsDropsBytes | RenderHelpers.MapRgb |
| src/renderer.cpp:16-23 | `color_mult` shifts each scaled channel into place before taking the minimum with 255, so a blue product of at least 65536 wraps | colour `0x00ff0000` with scale 258: the blue product 65790 wraps to a blue byte of 254, where the cap gives 255 | saturate each channel at 255 before shifting | medium, not executed | RenderHelpers.ColorMultBlueWraps | RenderHelpers.ColorMultSaturating |
| src/parser.cpp:47-53 | when the digits run to the end of the line, `skip_num` leaves idx at `size()+1`, and `f` then reads `line[idx]` past the terminator | in `"f 1 2 3"` the scan from the last `3` ends at 8, one past the end of the 7-character line | stop on the first non-digit or at `size()` | medium, not executed | ObjScan.SkipNumOverRead | ObjScan.SkipNumWithin |
