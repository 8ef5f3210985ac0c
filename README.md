# 3DPhotoBrowser core, modelled in Dafny

3DPhotoBrowser shows a photo collection as image tiles on a plane, seen from a camera that
pans, zooms and animates moves. Two layouts arrange the tiles by date: a calendar of day
columns and year rows, and a compact packing. Its companion IndexSorter tool sorts the photo
index file by date and writes how many photos each day has. This project models the
sequential logic of both programs and proves what it promises.

Files and modules:

- `geometry.dfy` (`Geometry`): points and vectors, the squared distance, the image-plane point of a ray.
- `util.dfy` (`Util`): `Clamp` with its written-back reference parameter; the djb2 `HashString` loop over 32-bit words.
- `user_preferences.dfy` (`Preferences`): the preference list with types and defaults, and the metadata list of the displayed preferences. The class `UserPreferences` has change-only setters and listeners notified in order. A listener call is recorded in a notification log.
- `camera.dfy` (`CameraEngine`): the kinematics as functions with lemmas, and the class `Camera` proved against them. It covers boundary-aware velocity decay, animated moves that snap on their last frame, swipes and drags with debounced history, undo, zoom targets and the visible bounds.
- `index_format.dfy` (`IndexFormat`): the index record, the 32-bit integer conversions and the packed thumbnail index.
- `image_tile.dfy` (`Tiles`): the class `ImageTile`. It covers linear interpolation toward the goal, thumbnail slots in an array, the hit test, and the move, position and size setters.
- `image_context.dfy` (`Images`): the class `ImageContext`, built from the in-memory records. It tracks the year extrema, decodes the thumbnail entries and exposes the fixed day and time ranges.
- `layout.dfy` (`Layout`): what it means for a layout to send a tile toward a target.
- `calendar_layout.dfy` (`CalendarLayout`): `GetMonth` as a counting loop proved against a cumulative-days table, and the calendar placement.
- `compact_layout.dfy` (`CompactLayout`): the cursor-based packing loop and the re-centring pass.
- `photo_browser.dfy` (`Browser`): the controller's mouse, key and focus state, layout selection and cycling, the framerate floor, and the closest-image follow after a layout change.
- `index_sorter.dfy` (`IndexSorter`): the record order, the sort, the per-year day counts (the `std::map` is an ascending list of year entries) and the zero-filtered count listing.

Float quantities are `real`, and IEEE rounding is not modelled. `tan(fovy / 2)` is a positive
constant (1 for the default 90 degree field of view). The renderer's unprojected ray endpoints
are inputs. Preferences reach the layouts and the camera as a `Config` record. Every division of
the source is a precondition: the zoom-extents height, a tile's total move time, the distance to
a boundary in the braking branch, and the compact row count.

Where the code and its documentation differ, the model follows the code:

- A camera `MoveTo` with time 0 does not snap to its target on the next frame. The animated branch needs a positive time, so the velocity only decays (`CameraEngine.NoAnimationWithoutMoveTime`).
- `GetMonth` returns 0 for days that are not positive, though its comment says the month is at least 1. It returns 12 for every day past 366 (`CalendarLayout.MonthOfNonPositiveDay`, `CalendarLayout.MonthPastYearEnd`).
- The calendar's x uses the fixed minimum day 1 of the image context. The day, time and year differences are computed in `unsigned` arithmetic, modelled modulo 2^32.
- In the non-threaded build, `ActivateThumbnail` loads a slot whenever it has no texture and no pending load, even a slot with no thumbnail info.
- With `min > max`, `Clamp` is not idempotent (`Util.ClampTwiceWithInvertedBounds`).

## Model

| member | source | states |
|---|---|---|
| Util.Clamp | 3DPhotoBrowser/Src/Util.h:13-25 | below min the value written back and returned is min, above max it is max, otherwise the value is kept; with min <= max the result lies in [min, max] |
| Util.ClampIdempotent | 3DPhotoBrowser/Src/Util.h:13-25 | with min <= max, clamping an already clamped value changes nothing |
| Util.ClampTwiceWithInvertedBounds | 3DPhotoBrowser/Src/Util.h:16-23 | with min > max the min test fires first, so a second clamp moves the value again: clamping is not idempotent there |
| Util.CharValue | 3DPhotoBrowser/Src/Util.cpp:13 | a `char` read into an `int` lies in [-128, 128) and is congruent to its byte modulo 256 |
| Util.HashStep | 3DPhotoBrowser/Src/Util.cpp:13 | one djb2 round `(h << 5) + h + c` stays a 32-bit unsigned value |
| Util.HashOfEmpty | 3DPhotoBrowser/Src/Util.cpp:12-14 | the empty string, and any string starting with NUL, hashes to the seed 5381 |
| Util.HashFromInRange | 3DPhotoBrowser/Src/Util.cpp:12-14 | a hash started from a 32-bit value stays a 32-bit value |
| Util.HashFromAppend | 3DPhotoBrowser/Src/Util.cpp:13 | appending a non-NUL character c to a NUL-free string maps the hash h to h * 33 + c modulo 2^32 |
| Util.Djb2Append | 3DPhotoBrowser/Src/Util.cpp:12-14 | the same step law for the hash of a whole string from the seed |
| Util.HashFromStopsAtNul | 3DPhotoBrowser/Src/Util.cpp:13 | the loop stops at the first NUL: whatever follows it does not change the hash |
| Util.Djb2StopsAtNul | 3DPhotoBrowser/Src/Util.cpp:13 | the same for the hash of a whole string |
| Util.HashString | 3DPhotoBrowser/Src/Util.cpp:9-15 | the loop returns the djb2 hash of the characters before the terminator, a 32-bit value |
| Geometry.DistanceSquared | 3DPhotoBrowser/Src/PhotoBrowser.cpp:377-379 | the squared planar distance the closest-image search compares is never negative |
| Geometry.ImagePlanePoint | 3DPhotoBrowser/Src/Camera.cpp:58-77 | the returned point, at z = 0, lies on the line through the unprojected far and near points |
| IndexFormat.SizeLevel | 3DPhotoBrowser/Src/ImageContext.cpp:104 | the low three bits give a level below 8 |
| IndexFormat.ContainerNumber | 3DPhotoBrowser/Src/ImageContext.cpp:105 | the remaining bits give a container number below 2^29 |
| IndexFormat.PackOfUnpacked | 3DPhotoBrowser/Src/ImageContext.cpp:101-105 | splitting a packed index and packing the parts again gives the stored value |
| IndexFormat.UnpackOfPacked | 3DPhotoBrowser/Src/ImageContext.cpp:101-105 | packing any level below 8 and container below 2^29 gives an `unsigned` whose split gives both back |
| IndexFormat.ToUnsigned | 3DPhotoBrowser/Src/CalendarLayout.cpp:43-47 | the `unsigned` differences of the layout keep values in [0, 2^32) and add 2^32 to a negative difference |
| IndexFormat.ToInt32 | 3DPhotoBrowser/Src/CalendarLayout.cpp:48 | an `unsigned` day passed to `int` GetMonth keeps its value modulo 2^32 |
| IndexFormat.ShortThroughUnsigned | 3DPhotoBrowser/Src/ImageTile.h:83-88 | a `short` date field returned through `unsigned` and read back as `int` is unchanged |
| CalendarLayout.GetMonth | 3DPhotoBrowser/Src/CalendarLayout.cpp:73-101 | the loop returns Month(day), the month the subtraction stops at |
| CalendarLayout.CumulativeDaysAddUp | 3DPhotoBrowser/Src/CalendarLayout.cpp:75-89 | the month table adds up month by month to 366 days, February always having 29 |
| CalendarLayout.CumulativeDaysIncrease | 3DPhotoBrowser/Src/CalendarLayout.cpp:75-89 | every month has days, so the cumulative counts strictly increase up to 366 |
| CalendarLayout.MonthFromStops | 3DPhotoBrowser/Src/CalendarLayout.cpp:93-100 | the loop stops at the first month whose cumulative count reaches the day, or after 12 months |
| CalendarLayout.MonthOfDay | 3DPhotoBrowser/Src/CalendarLayout.cpp:91-100 | for a day in 1..366 the result is in 1..12 and is the least month whose first months reach the day |
| CalendarLayout.MonthOfNonPositiveDay | 3DPhotoBrowser/Src/CalendarLayout.cpp:94 | a day that is not positive gives 0, not a month in 1..12, unlike what the comment on line 99 says |
| CalendarLayout.MonthPastYearEnd | 3DPhotoBrowser/Src/CalendarLayout.cpp:94 | every day past 366 gives 12, because the loop stops after twelve months |
| CalendarLayout.MonthMonotone | 3DPhotoBrowser/Src/CalendarLayout.cpp:73-101 | a later day never gets an earlier month |
| CalendarLayout.MonthsOrdered | 3DPhotoBrowser/Src/CalendarLayout.cpp:93-100 | where the loop stops for two ordered days, the months are ordered too |
| CalendarLayout.DayColumnInRange | 3DPhotoBrowser/Src/CalendarLayout.cpp:47-48 | for a day in 1..366 the unsigned offset is day - 1 and GetMonth gets the day unchanged |
| CalendarLayout.TimeFractionInRange | 3DPhotoBrowser/Src/CalendarLayout.cpp:43 | a time of day within the day gives a fraction in [0, 1] |
| CalendarLayout.RelativeYearInRange | 3DPhotoBrowser/Src/CalendarLayout.cpp:44 | for a year up to the last year, the unsigned difference is the plain one |
| CalendarLayout.CalendarWithinWidth | 3DPhotoBrowser/Src/CalendarLayout.cpp:28-48 | every day's column starts at or right of 0 and ends, one pitch on, within the full width 2 * halfSpanX |
| CalendarLayout.ColumnWithinWidth | 3DPhotoBrowser/Src/CalendarLayout.cpp:28-48 | the same for any offset 0..365 and month 1..12 |
| CalendarLayout.CalendarWithinHeight | 3DPhotoBrowser/Src/CalendarLayout.cpp:29-52 | every stamp in range gets a row between 0 and the full height 2 * halfSpanY |
| CalendarLayout.RowWithinHeight | 3DPhotoBrowser/Src/CalendarLayout.cpp:29-52 | the same for any year count up to the span and any fraction of the day |
| CalendarLayout.LaterYearLower | 3DPhotoBrowser/Src/CalendarLayout.cpp:44-52 | at the same time of day a later year is placed strictly lower (smaller y) |
| CalendarLayout.RowsOrdered | 3DPhotoBrowser/Src/CalendarLayout.cpp:50-52 | fewer years above the last, at the same fraction of the day, gives a smaller y |
| CalendarLayout.LaterTimeHigher | 3DPhotoBrowser/Src/CalendarLayout.cpp:43-56 | in one year a later time of day is placed strictly higher and in front |
| CalendarLayout.LaterDayRight | 3DPhotoBrowser/Src/CalendarLayout.cpp:47-48 | a later day of the year is placed strictly further right |
| CalendarLayout.ColumnsOrdered | 3DPhotoBrowser/Src/CalendarLayout.cpp:47-48 | a larger offset in a month no earlier gives a larger x |
| CalendarLayout.DepthWithinOnePercent | 3DPhotoBrowser/Src/CalendarLayout.cpp:54-56 | the depth offset is at most one hundredth of the image size either way |
| CalendarLayout.Place | 3DPhotoBrowser/Src/CalendarLayout.cpp:42-60 | the per-tile arithmetic gives the calendar target of the tile's stamp, centred on the origin |
| CalendarLayout.DoLayout | 3DPhotoBrowser/Src/CalendarLayout.cpp:14-69 | every tile is sent from where it stands to its calendar target with the image size and move time, its position and thumbnail choice kept; the spans returned are twice the half spans |

| Tiles.LerpBetween | 3DPhotoBrowser/Src/ImageTile.cpp:76-78 | a coordinate interpolated at a fraction in [0, 1] lies between its start and its goal |
| Tiles.ProgressIsFraction | 3DPhotoBrowser/Src/ImageTile.cpp:73 | with 0 <= remaining <= total, `1 - remaining / total` is a fraction in [0, 1] |
| Tiles.InterpolateBetween | 3DPhotoBrowser/Src/ImageTile.cpp:72-78 | while a move is under way each coordinate of the position lies between start and goal |
| Tiles.InterpolateArrives | 3DPhotoBrowser/Src/ImageTile.cpp:72-78 | with no time remaining the position is exactly the goal |
| Tiles.InterpolateDeparts | 3DPhotoBrowser/Src/ImageTile.cpp:73-78 | with all the time remaining the position is the start |
| Tiles.RemainingAfter | 3DPhotoBrowser/Src/ImageTile.cpp:72 | the remaining time after a frame is never negative, is either 0 or reduced by dt, and never grows for dt >= 0 |
| Tiles.ImageTile.constructor | 3DPhotoBrowser/Src/ImageTile.cpp:12-26 | a new tile is at the origin with unit size, no move, no active thumbnail and zeroed slots, holding the date and colour the loader copies in |
| Tiles.ImageTile.Stamp | 3DPhotoBrowser/Src/ImageTile.h:83-88 | the date handed out is the stored one, day and year widened from `short` to `unsigned` (unchanged when not negative) |
| Tiles.ImageTile.GetTimeStamp | 3DPhotoBrowser/Src/ImageTile.h:83-88 | returns the stored time of day, and day and year that read back as the stored `short` values |
| Tiles.ImageTile.GetMoveToGoalPosition | 3DPhotoBrowser/Src/ImageTile.h:115-120 | returns the goal of the last move |
| Tiles.ImageTile.SetSize | 3DPhotoBrowser/Src/ImageTile.h:126-130 | overwrites the size and nothing else |
| Tiles.ImageTile.SetPosition | 3DPhotoBrowser/Src/ImageTile.h:136-141 | overwrites the position; start, goal and times are kept |
| Tiles.ImageTile.MoveTo | 3DPhotoBrowser/Src/ImageTile.h:146-155 | the move starts at the current position toward the target, with the image move time as total and remaining time; the position is not changed |
| Tiles.ImageTile.Tick | 3DPhotoBrowser/Src/ImageTile.cpp:68-80 | with no time left nothing changes; otherwise the remaining time drops by dt, not below 0, and the position is the interpolation between start and goal |
| Tiles.ImageTile.Outline | 3DPhotoBrowser/Src/ImageTile.cpp:85-115 | reports a hit exactly when the mouse ray's image-plane point is within half the size of the centre along both axes, edges included |
| Tiles.ImageTile.OnLoadComplete | 3DPhotoBrowser/Src/ImageTile.cpp:119-126 | the loaded texture goes into its slot, which becomes active; other slots are unchanged |
| Tiles.ImageTile.ActivateThumbnail | 3DPhotoBrowser/Src/ImageTile.cpp:130-157 | the requested slot (or none) becomes active; an unloaded slot with no pending load is loaded on the spot, others keep their texture; no other slot changes |
| Tiles.ImageTile.AddThumbnailInfo | 3DPhotoBrowser/Src/ImageTile.cpp:161-168 | the slot of that size records the file, offset and byte size; no other slot changes |
| Tiles.CoversByDistance | 3DPhotoBrowser/Src/ImageTile.cpp:105-106 | the hit test is the same as both distances from the centre being at most half the size |
| Tiles.MoveWithoutMoveTime | 3DPhotoBrowser/Src/ImageTile.h:146-155 | with a zero image move time, a move followed by a tick leaves the tile where it was |
| Tiles.MoveArrives | 3DPhotoBrowser/Src/ImageTile.cpp:68-80 | a move followed by a frame at least as long as the move time ends exactly on the goal, with no time left |
| Tiles.TickStaysOnSegment | 3DPhotoBrowser/Src/ImageTile.cpp:68-80 | a tick of a move under way, with dt >= 0, leaves every coordinate between the move's start and goal |
| Images.SizeOfLevel | 3DPhotoBrowser/Src/ImageContext.cpp:107-121 | size level 0..5 names thumbnail size 5 - level, a real size below MAX |
| Images.FolderIsPixelSize | 3DPhotoBrowser/Src/ImageContext.cpp:126 | the folder number `32 << size` is the size's edge length in pixels |
| Images.LevelsHalve | 3DPhotoBrowser/Src/ImageContext.cpp:107-109 | level 0 is 1024 pixels, level 5 is 32, and each further level halves the edge length |
| Images.SlotsAfter | 3DPhotoBrowser/Src/ImageContext.cpp:92-132 | the entries of a record fill exactly the six slots of a tile |
| Images.EmptyEntrySkipped | 3DPhotoBrowser/Src/ImageContext.cpp:95-99 | an entry with image size 0 leaves every slot as it was |
| Images.SlotsInTheirFolders | 3DPhotoBrowser/Src/ImageContext.cpp:101-131 | every filled slot holds the file in the folder of its own size, with the entry's offset and byte size and no texture loaded |
| Images.YearRange | 3DPhotoBrowser/Src/ImageContext.cpp:78-80 | starting from the largest and smallest `int`, the extrema bound every record's year and are the year of some record when there is one |
| Images.EmptyYearRange | 3DPhotoBrowser/Src/ImageContext.cpp:13-14 | with no records the minimum stays above the maximum |
| Images.ImageContext.constructor | 3DPhotoBrowser/Src/ImageContext.cpp:12-17 | an empty context with the year extrema at the largest and the smallest `int` |
| Images.ImageContext.GetImage | 3DPhotoBrowser/Src/ImageContext.h:54 | returns the tile at an index below the image count |
| Images.ImageContext.CreateContext | 3DPhotoBrowser/Src/ImageContext.cpp:21-143 | one new tile per record in record order, each built from its record, and the year extrema widened by every record's year |
| Images.NewTiles | 3DPhotoBrowser/Src/ImageContext.cpp:72-133 | the tile loop makes one distinct new tile per record, built from it |
| Images.YearBounds | 3DPhotoBrowser/Src/ImageContext.cpp:78-80 | the year updates give the minimum and maximum of the starting values and all record years |
| Images.NewTile | 3DPhotoBrowser/Src/ImageContext.cpp:82-132 | a new tile carries the record's date, colour and aspect ratio, with its slots filled from the record's entries |
| Images.SlotsStep | 3DPhotoBrowser/Src/ImageContext.cpp:93-132 | adding one more entry skips it when empty and otherwise fills its slot |
| Images.AddThumbnail | 3DPhotoBrowser/Src/ImageContext.cpp:104-131 | one non-empty entry is decoded and fills exactly the slot of its size |
| Images.AddThumbnails | 3DPhotoBrowser/Src/ImageContext.cpp:93-132 | the inner loop leaves the tile's slots as SlotsAfter of the record's entries |
| CompactLayout.ColumnsUsedExact | 3DPhotoBrowser/Src/CompactLayout.cpp:48 | `ceil((float)count / rowCount)` is the integer ceiling of count / rows, one past the last column used when count > 0 |
| CompactLayout.CeilOfQuotient | 3DPhotoBrowser/Src/CompactLayout.cpp:48 | a quotient whose multiples bracket n is the ceiling of n / d |
| CompactLayout.NextQuotient | 3DPhotoBrowser/Src/CompactLayout.cpp:76-96 | counting one more tile moves one sub-row down, or from the last sub-row to the top of the next sub-column |
| CompactLayout.MaximaBound | 3DPhotoBrowser/Src/CompactLayout.cpp:86-89 | the running maxima are never negative and bound every packed x and -y |
| CompactLayout.AdvanceInQuadrant | 3DPhotoBrowser/Src/CompactLayout.cpp:44-72 | with non-negative pitches and paddings the day and year checks keep the day start at or right of 0 and the year start at or below 0 |
| CompactLayout.CursorInQuadrant | 3DPhotoBrowser/Src/CompactLayout.cpp:25-97 | the same holds for the cursor after any number of tiles |
| CompactLayout.PlacedInQuadrant | 3DPhotoBrowser/Src/CompactLayout.cpp:80-84 | with forward pitches every packed tile lies right of and below the origin |
| CompactLayout.PlaceInQuadrant | 3DPhotoBrowser/Src/CompactLayout.cpp:80-84 | a cursor right of and below 0 places its tile right of and below 0 |
| CompactLayout.CompactCentred | 3DPhotoBrowser/Src/CompactLayout.cpp:99-110 | after centring every tile is within half the packed extent of the origin along both axes |
| CompactLayout.SingleTileAtOrigin | 3DPhotoBrowser/Src/CompactLayout.cpp:99-110 | a single tile is placed exactly at the origin |
| CompactLayout.NewYearStartsBand | 3DPhotoBrowser/Src/CompactLayout.cpp:58-72 | a new year starts at the left edge, one band (deepest sub-row plus one) and the year padding below, with no tiles counted |
| CompactLayout.NewDayPastPreviousColumns | 3DPhotoBrowser/Src/CompactLayout.cpp:44-56 | a new day in the same year starts past every column the previous day filled, by the day padding |
| CompactLayout.ColumnFillsDownward | 3DPhotoBrowser/Src/CompactLayout.cpp:76-96 | within a day the next tile goes one row pitch lower, or after the last row to the top of the next column |
| CompactLayout.CentredAt | 3DPhotoBrowser/Src/CompactLayout.cpp:109 | a tile sent toward its packed position shifted by the final half spans is at its centred target |
| CompactLayout.PackNext | 3DPhotoBrowser/Src/CompactLayout.cpp:41-96 | one loop step gives the position the advanced cursor points at, and the cursor after placing there |
| CompactLayout.PackingChain | 3DPhotoBrowser/Src/CompactLayout.cpp:36-97 | each cursor is the one before advanced past the tile's date and placed, and each packed position is where the advanced cursor points |
| CompactLayout.PackTile | 3DPhotoBrowser/Src/CompactLayout.cpp:38-96 | the loop body sends tile i toward its packed position with the image size, and leaves the next cursor |
| CompactLayout.PackAll | 3DPhotoBrowser/Src/CompactLayout.cpp:36-97 | the packing loop sends every tile, in order, toward its packed position and returns the final cursor |
| CompactLayout.CentreAll | 3DPhotoBrowser/Src/CompactLayout.cpp:99-110 | the centring loop shifts every tile's goal by the half spans, the move starting from where the tile stands |
| CompactLayout.DoLayout | 3DPhotoBrowser/Src/CompactLayout.cpp:14-114 | every tile is sent from where it stands toward its centred packed position with image size and move time, its position and thumbnail choice kept; the spans are twice the half spans |
| CompactLayout.Arrange | 3DPhotoBrowser/Src/CompactLayout.cpp:23-110 | the two passes together leave every tile at its centred target |
| CameraEngine.DecayedVelocity | 3DPhotoBrowser/Src/Camera.cpp:385-430 | one frame's velocity keeps its sign (or becomes zero), stays zero when zero, and with a positive deceleration never grows in magnitude |
| CameraEngine.DecelerationSign | 3DPhotoBrowser/Src/Camera.cpp:394-421 | the stopping deceleration v²/(2·dist) is negative exactly when the boundary lies behind the position |
| CameraEngine.RestsWithinUpperBoundary | 3DPhotoBrowser/Src/Camera.cpp:385-406 | moving up from inside the boundary, the velocity is kept, the deceleration stays positive, the rest point is no further than the boundary and exactly on it when the configured deceleration would pass it |
| CameraEngine.RestsWithinLowerBoundary | 3DPhotoBrowser/Src/Camera.cpp:408-429 | the same for motion towards the lower boundary |
| CameraEngine.StoppingDistance | 3DPhotoBrowser/Src/Camera.cpp:394-417 | the replacement deceleration stops the camera after exactly the distance to the boundary |
| CameraEngine.PastUpperBoundaryHalts | 3DPhotoBrowser/Src/Camera.cpp:392-402 | already past the upper boundary and moving towards it, velocity and deceleration become zero |
| CameraEngine.PastLowerBoundaryHalts | 3DPhotoBrowser/Src/Camera.cpp:415-425 | already below the lower boundary and moving towards it, velocity and deceleration become zero |
| CameraEngine.CheckBoundary | 3DPhotoBrowser/Src/Camera.cpp:385-426 | the boundary check's velocity and deceleration are the ones BoundaryBraking specifies |
| CameraEngine.UpdateVelocityComponent | 3DPhotoBrowser/Src/Camera.cpp:377-431 | the in-out velocity after the update is DecayedVelocity of the inputs |
| CameraEngine.AnimatedMoveSnaps | 3DPhotoBrowser/Src/Camera.cpp:356-364 | once the remaining time is at most one frame, the camera is placed on the move target, at rest, with no time left |
| CameraEngine.AnimatedMoveApproaches | 3DPhotoBrowser/Src/Camera.cpp:350-356 | mid-move, the time drops by dt and each coordinate's offset from the target shrinks by the factor 1 - 2dt/t |
| CameraEngine.NoAnimationWithoutMoveTime | 3DPhotoBrowser/Src/Camera.cpp:330-372 | with no move time left the position is not touched by the velocity update, the move time is kept, and a camera at rest stays where it is |
| CameraEngine.MoveTimeCountsDown | 3DPhotoBrowser/Src/Camera.cpp:356-364 | the remaining move time never grows and never becomes negative |
| CameraEngine.PanDecelerationLinearInHeight | 3DPhotoBrowser/Src/Camera.h:272-280 | the pan deceleration scales linearly with the camera's height and is zero at height zero |
| CameraEngine.VisibleBounds | 3DPhotoBrowser/Src/Camera.cpp:45-54 | the visible rectangle is centred under the camera, 2·tan(fovy/2)·z high and of the viewport's aspect ratio |
| CameraEngine.ZoomTarget | 3DPhotoBrowser/Src/Camera.cpp:151-182 | the zoom target is the point along the ray by the zoom amount in depth, or the point at exactly the minimum zoom distance when that would go lower |
| CameraEngine.ZoomNeverBelowMinimum | 3DPhotoBrowser/Src/Camera.cpp:167-176 | a zoom target is never below the minimum zoom distance |
| CameraEngine.ExtentsTarget | 3DPhotoBrowser/Src/Camera.cpp:198-227 | the extents target is centred over the rectangle |
| CameraEngine.ZoomExtentsFits | 3DPhotoBrowser/Src/Camera.cpp:198-227 | from the extents target the visible half width and half height cover the rectangle, exactly on the dimension that decided the height |
| CameraEngine.Converge | 3DPhotoBrowser/Src/Camera.cpp:279-280 | the slew offset moves three quarters of the way to its goal: its distance to the goal shrinks to a quarter |
| CameraEngine.Camera.constructor | 3DPhotoBrowser/Src/Camera.cpp:11-35 | the initial view, boundaries, home and an empty undo stack |
| CameraEngine.Camera.SetPosition | 3DPhotoBrowser/Src/Camera.h:61-68 | only the position changes |
| CameraEngine.Camera.SetHomePosition | 3DPhotoBrowser/Src/Camera.h:72-79 | only the home position changes |
| CameraEngine.Camera.SetBoundaryX | 3DPhotoBrowser/Src/Camera.h:127-133 | one axis's bounds are overwritten, the others kept |
| CameraEngine.Camera.SetBoundaryY | 3DPhotoBrowser/Src/Camera.h:137-143 | one axis's bounds are overwritten, the others kept |
| CameraEngine.Camera.SetBoundaryZ | 3DPhotoBrowser/Src/Camera.h:147-153 | one axis's bounds are overwritten, the others kept |
| CameraEngine.Camera.SavePosition | 3DPhotoBrowser/Src/Camera.cpp:315-323 | the current position is pushed on the undo stack |
| CameraEngine.Camera.MoveTo | 3DPhotoBrowser/Src/Camera.cpp:103-113 | the move target and time are set and the current position is saved |
| CameraEngine.Camera.MoveToHome | 3DPhotoBrowser/Src/Camera.cpp:143-147 | a one-second move to the home position, saving the current one |
| CameraEngine.Camera.UndoLastMove | 3DPhotoBrowser/Src/Camera.cpp:231-246 | an empty stack changes nothing; otherwise a one-second move to the old top, which the stack loses |
| CameraEngine.Camera.Debounce | 3DPhotoBrowser/Src/Camera.cpp:89-98 | a non-zero delta saves the position when more than five frames passed, and restarts the frame count |
| CameraEngine.Camera.Swipe | 3DPhotoBrowser/Src/Camera.cpp:81-99 | the swipe impulse is added to the velocity, then the history rule applies |
| CameraEngine.Camera.MoveScreenDelta | 3DPhotoBrowser/Src/Camera.cpp:117-139 | motion stops, position and look point move by the world distance of the screen delta, then the history rule applies |
| CameraEngine.Camera.ZoomScreenPoint | 3DPhotoBrowser/Src/Camera.cpp:151-182 | a timed move to the zoom target, never below the minimum zoom distance |
| CameraEngine.Camera.ZoomExtents | 3DPhotoBrowser/Src/Camera.cpp:198-227 | a one-second move to the extents target |
| CameraEngine.Camera.ZoomScreenExtents | 3DPhotoBrowser/Src/Camera.cpp:186-194 | a one-second move to the extents target of the two corners' image-plane points |
| CameraEngine.Camera.ResizeViewport | 3DPhotoBrowser/Src/Camera.cpp:300-311 | sizes below 1 become 1 and the aspect ratio follows the new size |
| CameraEngine.Camera.UpdateVelocity | 3DPhotoBrowser/Src/Camera.cpp:327-373 | the motion state after the update is VelocityUpdate of the old one |
| CameraEngine.Camera.CountFrame | 3DPhotoBrowser/Src/Camera.cpp:294-295 | the frame counter advances modulo 2^29 and stays within 29 bits |
| CameraEngine.Camera.Advance | 3DPhotoBrowser/Src/Camera.cpp:266-268 | the position moves by velocity · dt |
| CameraEngine.Camera.FollowPosition | 3DPhotoBrowser/Src/Camera.cpp:272-291 | the look point follows the position in the plane, ahead of it by the converging slew offset when slew is enabled |
| CameraEngine.Camera.Tick | 3DPhotoBrowser/Src/Camera.cpp:260-296 | one frame: the motion follows Step, the look point follows, the frame counter advances modulo 2^29 |
| CameraEngine.Camera.CountAndFollow | 3DPhotoBrowser/Src/Camera.cpp:270-295 | the frame count then the look point, as Tick leaves them |
| CameraEngine.Camera.Move | 3DPhotoBrowser/Src/Camera.cpp:262-268 | the velocity update then the position advance, as Step specifies |
| CameraEngine.UndoAfterTwoMoves | 3DPhotoBrowser/Src/Camera.cpp:231-246 | after two moves one undo heads back to where the second move started and keeps only the first move's entry |
| Preferences.ListedAtOrdinal | 3DPhotoBrowser/Src/UserPreferences.h:79-84 | every preference is in the list at the position its enum value gives |
| Preferences.ListedAtOrdinalInverse | 3DPhotoBrowser/Src/UserPreferences.h:79-84 | the enum value of the preference at position k is k |
| Preferences.DefaultValues | 3DPhotoBrowser/Src/UserPreferences.h:259-261 | the constructor gives every preference its listed default, of its declared type |
| Preferences.DefaultWellTyped | 3DPhotoBrowser/Src/UserPreferences.h:23-51 | each default has the preference's declared type |
| Preferences.DisplayedOfSound | 3DPhotoBrowser/Src/UserPreferences.h:264-265 | every metadata entry describes a displayed preference of the list with that preference's type |
| Preferences.DisplayedOfComplete | 3DPhotoBrowser/Src/UserPreferences.h:264-265 | every displayed preference of the list has a metadata entry |
| Preferences.DisplayedOfOrdered | 3DPhotoBrowser/Src/UserPreferences.h:264-265 | the metadata keeps list order |
| Preferences.AllPreferencesOrdered | 3DPhotoBrowser/Src/UserPreferences.h:79-84 | the list is in increasing enum order |
| Preferences.MetadataIsDisplayedPreferences | 3DPhotoBrowser/Src/UserPreferences.h:264-265 | the store's metadata is exactly the UI-displayed preferences, each once, in list order, with its own type; the saved camera coordinates are absent |
| Preferences.IdsOf | 3DPhotoBrowser/Src/UserPreferences.h:126 | the ids of a metadata list, entry by entry |
| Preferences.At | 3DPhotoBrowser/Src/UserPreferences.h:196 | a stored value has its preference's declared type |
| Preferences.UserPreferences.constructor | 3DPhotoBrowser/Src/UserPreferences.h:256-266 | defaults assigned, metadata of the displayed preferences pushed, no listeners |
| Preferences.UserPreferences.Get | 3DPhotoBrowser/Src/UserPreferences.h:196 | the getter returns a value of the preference's declared type |
| Preferences.UserPreferences.AddUserPreferenceListener | 3DPhotoBrowser/Src/UserPreferences.h:180-183 | the listener is appended, duplicates allowed |
| Preferences.UserPreferences.FireUserPreferenceUpdateEvent | 3DPhotoBrowser/Src/UserPreferences.h:246-250 | every registered listener is called once, in registration order |
| Preferences.UserPreferences.Set | 3DPhotoBrowser/Src/UserPreferences.h:197-204 | a different value is stored and fires one update event; the same value changes nothing and notifies no one |
| Preferences.UserPreferences.SetThrough | 3DPhotoBrowser/Src/UserPreferences.h:112-120 | the same change-only rule through a metadata entry |
| Preferences.SetTwiceNotifiesOnce | 3DPhotoBrowser/Src/UserPreferences.h:197-204 | setting the same value twice notifies a listener once |
| Browser.FramerateFloor | 3DPhotoBrowser/Src/PhotoBrowser.cpp:578-582 | the limit after an update is positive: a positive limit is kept, any other becomes 5 |
| Browser.NextLayout | 3DPhotoBrowser/Src/PhotoBrowser.cpp:793-797 | the V key selects the next layout, wrapping from the last to the first |
| Browser.CycleAdvances | 3DPhotoBrowser/Src/PhotoBrowser.cpp:793-797 | k presses move k places along the layout list modulo its length |
| Browser.CycleReturns | 3DPhotoBrowser/Src/PhotoBrowser.cpp:793-797 | as many presses as layouts come back to the start, and no fewer do |
| Browser.UnsignedIndexComparison | 3DPhotoBrowser/Src/PhotoBrowser.cpp:598-599 | comparing the signed current index with the unsigned layout index gives the signed answer, -1 included |
| Browser.FirstClosestUnique | 3DPhotoBrowser/Src/PhotoBrowser.cpp:380 | the strict comparison makes the first closest tile unique |
| Browser.FindClosest | 3DPhotoBrowser/Src/PhotoBrowser.cpp:326-388 | the search returns a tile at least distance from the mouse point, and strictly closer than every earlier tile |
| Browser.PhotoBrowser.constructor | 3DPhotoBrowser/Src/PhotoBrowser.cpp:23-45 | all flags clear, positions zero, no layout selected |
| Browser.PhotoBrowser.RegisterLayout | 3DPhotoBrowser/Src/PhotoBrowser.h:77-84 | a layout without a saved camera position is appended |
| Browser.PhotoBrowser.SelectLayout | 3DPhotoBrowser/Src/PhotoBrowser.cpp:225-246 | the outgoing layout saves the camera position; the changed flag is raised when the index differs; the incoming layout is laid out, recentring only without a saved position, and otherwise the camera moves back to it |
| Browser.PhotoBrowser.OnUserPreferenceUpdate | 3DPhotoBrowser/Src/PhotoBrowser.cpp:574-609 | the framerate floor, then unless closing a new layout is selected or the current one is laid out again without recentring; a raised floor re-enters the handler through the setter, which adds one more pass of the current layout without recentring |
| Browser.PhotoBrowser.ApplyLayoutPreference | 3DPhotoBrowser/Src/PhotoBrowser.cpp:594-608 | unless closing, a layout index other than the current one is selected, and the current one is laid out again without recentring, leaving the camera target and history alone |
| Browser.PhotoBrowser.CycleLayoutKey | 3DPhotoBrowser/Src/PhotoBrowser.cpp:793-797 | a pressed V is released and sets the current-layout preference to the next layout |
| Browser.PhotoBrowser.FinishFrame | 3DPhotoBrowser/Src/PhotoBrowser.cpp:324-447 | in the frame after a layout change with follow mode on, the camera moves so the first closest image is again under the mouse; the frame flags are cleared |
| Browser.PhotoBrowser.OnClick | 3DPhotoBrowser/Src/PhotoBrowser.cpp:496-524 | a press after focus does not zoom; the button's press flag and position are recorded |
| Browser.PhotoBrowser.OnRelease | 3DPhotoBrowser/Src/PhotoBrowser.cpp:528-544 | the button's release flag takes its press flag, which is cleared |
| Browser.PhotoBrowser.OnLeave | 3DPhotoBrowser/Src/PhotoBrowser.cpp:548-554 | both buttons are released by the same rule |
| Browser.PhotoBrowser.OnMove | 3DPhotoBrowser/Src/PhotoBrowser.cpp:487-492 | the mouse position is recorded |
| Browser.PhotoBrowser.OnWheelRoll | 3DPhotoBrowser/Src/PhotoBrowser.cpp:480-483 | wheel steps accumulate |
| Browser.PhotoBrowser.OnKeyDown | 3DPhotoBrowser/Src/PhotoBrowser.cpp:558-562 | the key is set down |
| Browser.PhotoBrowser.OnKeyUp | 3DPhotoBrowser/Src/PhotoBrowser.cpp:566-570 | the key is set up |
| Browser.PhotoBrowser.DebounceKeys | 3DPhotoBrowser/Src/PhotoBrowser.cpp:802-809 | every key in the map is set up and none is added |
| Browser.PhotoBrowser.OnFocus | 3DPhotoBrowser/Src/PhotoBrowser.cpp:460-469 | focus gained is remembered for the frame; focus lost releases every key |
| Browser.PhotoBrowser.OnClose | 3DPhotoBrowser/Src/PhotoBrowser.cpp:473-476 | the controller is done |
| Browser.ClickAndRelease | 3DPhotoBrowser/Src/PhotoBrowser.cpp:496-544 | a press and release of the left button leaves a release at that position |
| Browser.ReselectKeepsCamera | 3DPhotoBrowser/Src/PhotoBrowser.cpp:225-246 | selecting the same layout twice never recentres the second time and moves back to the saved camera |
| IndexSorter.KeyOrder | IndexSorter/Src/Main.cpp:19-37 | the integer key orders records by year, then day of year, then time of day, and two keys are equal exactly when those three fields are |
| IndexSorter.Less | IndexSorter/Src/Main.cpp:19-37 | operator< holds exactly when the key of the left record is smaller |
| IndexSorter.EquivalentIffSameKey | IndexSorter/Src/Main.cpp:19-37 | two records are equivalent under operator< exactly when year, day and time agree |
| IndexSorter.OnlyKeyFieldsMatter | IndexSorter/Src/Main.cpp:19-37 | the size, colour, folder, name and thumbnail fields never affect the order |
| IndexSorter.LessIsStrictWeakOrder | IndexSorter/Src/Main.cpp:19-37 | operator< is irreflexive, transitive and its equivalence is transitive, as std::sort requires |
| IndexSorter.SortedHasNoInversion | IndexSorter/Src/Main.cpp:133 | the sorted order is exactly: no later record is less than an earlier one |
| IndexSorter.Sink | IndexSorter/Src/Main.cpp:133 | one insertion step leaves the prefix sorted and the records a permutation of the old ones |
| IndexSorter.SortRecords | IndexSorter/Src/Main.cpp:133 | the sort leaves the records sorted and a permutation of the old ones |
| IndexSorter.YearSlot | IndexSorter/Src/Main.cpp:118 | the place of a year in the ascending list is within the list |
| IndexSorter.WithYear | IndexSorter/Src/Main.cpp:118 | after the lookup the year has an entry at its slot |
| IndexSorter.YearSlotSplits | IndexSorter/Src/Main.cpp:118 | the years before the slot are smaller and the years from it on are at least the looked-up year |
| IndexSorter.WithYearAscending | IndexSorter/Src/Main.cpp:118 | inserting the missing year keeps the years ascending and all other entries |
| IndexSorter.IncrementCounts | IndexSorter/Src/Main.cpp:118-123 | counting one record raises the count of its year and day by one and no other count |
| IndexSorter.IncrementTotal | IndexSorter/Src/Main.cpp:118-123 | counting one record raises the total by one |
| IndexSorter.IncrementAscending | IndexSorter/Src/Main.cpp:118-123 | counting keeps the years strictly ascending, as the map keeps its keys |
| IndexSorter.IncrementTrimmed | IndexSorter/Src/Main.cpp:119-123 | counting keeps every day vector non-empty and ending with a non-zero count |
| IndexSorter.BumpedTrimmed | IndexSorter/Src/Main.cpp:119-123 | a bumped day vector ends with a non-zero count |
| IndexSorter.WithYearMembers | IndexSorter/Src/Main.cpp:118 | the lookup adds at most an empty entry at the slot |
| IndexSorter.CountsStep | IndexSorter/Src/Main.cpp:110-124 | one more record counted adds its year and day to the counts |
| IndexSorter.ParseStep | IndexSorter/Src/Main.cpp:110-124 | one loop step keeps the parse invariant for one more record |
| IndexSorter.CountAllParsed | IndexSorter/Src/Main.cpp:110-124 | counting all records keeps the counts ascending and trimmed, adds each record to its year and day, and adds their number to the total |
| IndexSorter.EntryHoldsCount | IndexSorter/Src/Main.cpp:118-123 | the count of a stored year and day is the entry's vector element |
| IndexSorter.NoEntryNoCount | IndexSorter/Src/Main.cpp:118-123 | a year with no entry has no counts |
| IndexSorter.CountAppend | IndexSorter/Src/Main.cpp:63 | counts over a split list add up |
| IndexSorter.TotalAppend | IndexSorter/Src/Main.cpp:63 | totals over a split list add up |
| IndexSorter.SumBumped | IndexSorter/Src/Main.cpp:119-123 | padding and bumping one day adds one to the year's sum |
| IndexSorter.YearListingSum | IndexSorter/Src/Main.cpp:175-189 | a year's written counts add up to the year's sum |
| IndexSorter.YearListingMembers | IndexSorter/Src/Main.cpp:175-189 | a year writes exactly its days with non-zero counts, with those counts |
| IndexSorter.YearListingOrdered | IndexSorter/Src/Main.cpp:175-189 | a year's entries are written in increasing day order |
| IndexSorter.ListingSum | IndexSorter/Src/Main.cpp:172-190 | the count file's counts add up to the total of the day counts |
| IndexSorter.ListingMembers | IndexSorter/Src/Main.cpp:172-190 | the count file holds exactly the stored non-zero counts |
| IndexSorter.ListingYearsBounded | IndexSorter/Src/Main.cpp:172-190 | no entry's year is beyond the last stored year |
| IndexSorter.ListingOrdered | IndexSorter/Src/Main.cpp:172-190 | the count file is in increasing (year, day) order |
| IndexSorter.ListingIsCounts | IndexSorter/Src/Main.cpp:172-190 | an entry is in the count file exactly when its count is the non-zero count of its year and day |
| IndexSorter.CountRecord | IndexSorter/Src/Main.cpp:118-123 | the map lookup, padding and increment give Increment of the counts |
| IndexSorter.ParseRecords | IndexSorter/Src/Main.cpp:110-124 | the records are appended in order and counted, keeping the count invariants |
| IndexSorter.SorterData.constructor | IndexSorter/Src/Main.cpp:62-63 | both global containers start empty |
| IndexSorter.SorterData.ParseIndexFile | IndexSorter/Src/Main.cpp:94-128 | the records are appended and each counted under its year and day; the total grows by their number |
| IndexSorter.SorterData.WriteSortedIndexFile | IndexSorter/Src/Main.cpp:130-158 | the records are sorted in place as a permutation, and their number then the records are written |
| IndexSorter.SorterData.WriteIndexCountFile | IndexSorter/Src/Main.cpp:160-194 | the written entries are the listing of the day counts |
| IndexSorter.SortIndex | IndexSorter/Src/Main.cpp:65-92 | the sorted file is a sorted permutation of the input behind its count; the count file is ordered, adds up to the count, and each entry is the number of records of its year and day |

## Left out

- File I/O: the index file is read by `ImageContext::CreateContext` and by the sorter's `ParseIndexFile`, and written by `WriteSortedIndexFile` and `WriteIndexCountFile`. These are modelled on in-memory record sequences. What is written is returned as a sequence, and failed opens are not modelled.
- `LoadPreferences` and `SavePreferences` (UserPreferences.cpp): file I/O. The constructor is modelled up to the defaults and the metadata list, before the load.
- The Win32 window, its dialogs and key translation, the OpenGL renderer, `Camera::Apply`, and the viewport and projection calls in `ResizeViewport`: foreign calls.
- The threaded texture loader, its threads and semaphores, and DevIL decoding. The synchronous loader is a function parameter.
- `MainLoop` frame pacing, the culling and drawing parts of the browser's `Tick`, `Startup`/`Shutdown`, the window title and vertical sync updates on a preference change, and `CalculateDistanceCorrectedZoomValue` (it uses `log`).
- `Layout::UpdateCameraBoundaries` is not part of this model. The layouts return the spans they pass to it.
- A layout pass requested by the controller is recorded in `passes`, not run. What a pass does to the tiles is modelled by `CalendarLayout.DoLayout` and `CompactLayout.DoLayout`.
- A listener's `OnUserPreferenceUpdate` runs re-entrantly inside the setter in the source. The model records the call in the notification log. Only the browser's own handler, which the browser registers once at start-up (PhotoBrowser.cpp:148), is re-entered in the model, and only where the handler itself raises the framerate floor.
- Browser.PhotoBrowser.CycleLayoutKey: the handler run that its change of the current-layout preference starts inside the setter is not run inside the method; the notification is logged, and a caller follows it with `OnUserPreferenceUpdate`.
- Browser.PhotoBrowser.RegisterLayout: the camera fields of a new layout are left uninitialised in the source. The model gives them an arbitrary value and only states that no position is saved.
- IndexSorter.SortRecords: `std::sort` is modelled by an insertion sort. Only its result is specified (sorted, and a permutation). The order of equivalent records is not.
- IndexSorter.SorterData.ParseIndexFile: requires every day of year to be non-negative. A negative day pads the vector by its `unsigned short` value, then indexes before the vector's start.
- IndexSorter.SorterData.ParseIndexFile: the per-day `unsigned` counts are unbounded, and wrap-around after 2^32 records of one day is not modelled.
- Images.ImageContext.CreateContext: requires every record's height to be non-zero, since the aspect ratio divides by it.
- Images.ImageContext.CreateContext: requires every thumbnail size level to be at most 5. The source asserts on levels 6 and 7.
- CalendarLayout.DoLayout: the year span is computed with unbounded integers. For an empty context (extrema INT_MAX and INT_MIN) the source's `int` subtraction overflows.
- IEEE float behaviour: rounding, infinities and NaN from division by zero, and `tan` of the field of view.
