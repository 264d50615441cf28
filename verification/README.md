# Cosmo64 N64 port: the CPU-side core, modelled in Dafny

Cosmo64 runs *Cosmo's Cosmic Adventure* on the Nintendo 64. Its N64 port
replaces SDL with small pieces of its own. This project models the logic
those pieces run on the CPU and proves what they do:

- **Video** (`n64_video.c`).
  - The game and text surfaces are byte buffers of palette indices with an
    explicit width, height and pitch.
  - The game/text mode flag.
  - The tile blitters: opaque and keyed copy, font recolouring, force to
    colour 0xF, the bit-3 "mode 3" and highlight effects, the clipped copy,
    the vertically flipped copy, and 1-bit font glyphs on the text surface.
  - Filling with black and the full-screen image copy.
  - The band schedule `video_update` hands to the rasteriser, and the
    rotation between two display lists.
  - The index sequence of `fade_in_from_black`.
- **Palette** (`n64/SDL/SDL_pixels.h`). `SDL_Palette` and
  `SDL_SetPaletteColors` with its RGBA 5551 packing.
- **RAM reader** (`n64_sfx.c`).
  - The in-memory `MREADER` the sound library reads converted effects
    through: Eof, Read, Get, Seek, Tell and its constructor.
  - The `_swap16`/`_swap32` byte swaps.
  - The sound number rule of `play_sfx`.
- **Music scheduler** (`n64_music.c`).
  - `get_delay`.
  - The `generate_music` loop, which issues AdLib instructions between
    rendered samples and carries the pending delay across calls.
  - `music_read`, `load_music`, `stop_music` and `play_music`.
- **Input** (`n64_input.c`).
  - `read_input` outside demo play, and `reset_player_control_inputs`.
  - `poll_for_key_press`, on a controller snapshot.
  - The command key tables and `is_return_key`.

## How it is modelled

Files and modules:

| file | module | models |
|---|---|---|
| `wrappers.dfy` | `Wrappers` | `Option` |
| `surfaces.dfy` | `Surfaces` | what a blitter leaves in a surface, and the blitters' inner row loops |
| `video.dfy` | `Video` | the surfaces, the video state and the blitters |
| `palette.dfy` | `Palette` | `SDL_pixels.h` |
| `memreader.dfy` | `MemReader` | `n64_sfx.c` |
| `music.dfy` | `Music` | `n64_music.c` |
| `input.dfy` | `Input` | `n64_input.c` |

The code that changes state is imperative Dafny:

- The blitters are loops over an `array<bv8>`. Each is proved equal to a
  function `Drawn…` of the old contents, and lemmas state cell by cell what
  those functions write.
- The video, palette, reader, music player and key flags are classes whose
  methods update their fields.
- `generate_music` is a loop, proved equal to `Render`. `Render` is a
  recursive function of the old scheduler state; lemmas state how many
  samples it renders, where it writes them, which instructions it issues and
  why the carried delay makes the split into calls invisible.

Some things the source depends on are parameters of the model instead:

- Constants from headers that are not part of this model (`SCREEN_WIDTH`,
  `SCREEN_HEIGHT`, `TILE_WIDTH`, `TILE_HEIGHT`, `TRANSPARENT_COLOR`, the
  font size and the `int10_font_16` table) are the fields of
  `Video.Config`. The SOLID/TRANSPARENT tags are the datatype
  `Video.TileKind`.
- The rasteriser commands are recorded as abstract `Video.DlEntry`
  records: palette loads, copy mode, and bands of (source offset, rows,
  destination row, palette slot).
- The OPL emulator calls are recorded as `Music.OplCall` values.
- The controller is a `Input.Controller` snapshot.
- Results of code that is not part of this model are inputs: the result of
  `help_menu_dialog`, the track file's bytes and the colours of
  `set_palette_on_surface`.

Some members are helpers and have no row in the table below:

- `MemReader.AtEof` is `_reader_Eof`. What it means is stated through
  `MemReader.Get`, which gives EOF exactly when `AtEof` held.
- `Input.IsReturnKey` is `is_return_key`. What it means is stated through
  `Input.PollReturn`.
- `MemReader.SeekTarget` is the target computation inside `_reader_Seek`.
  What it means is stated through `MemReader.Seek`.
- `Music.FirstDelayFound` and `Music.Anchor` only serve the proof that
  `generate_music` terminates.

## Model

| member | source | states |
|---|---|---|
| Palette.Pack5551 | n64/SDL/SDL_pixels.h:56-62 | the packed colour is odd (alpha bit set), and its 5-bit fields at bits 15..11, 10..6 and 5..1 are the top five bits of red, green and blue |
| Palette.PackSameIff | n64/SDL/SDL_pixels.h:62 | two colours pack alike exactly when the top five bits of their red, green and blue agree; alpha plays no part |
| Palette.Palette.constructor | n64/SDL/SDL_pixels.h:15-21 | a 16-entry palette holding the given colours; version 0 and refcount 0 are this model's starting values, since the source leaves the malloc'd fields unset |
| Palette.SetPaletteColors | n64/SDL/SDL_pixels.h:47-67 | a null palette gives -1; otherwise the result is 0, exactly entries firstcolor .. firstcolor+ncolors-1 get the packed colours in order, every other entry is unchanged, and the version goes up by one (mod 2^32), also when ncolors is 0 |
| Surfaces.ApplyIdempotent | n64_video.c:215-227 | every compositing rule, applied to a cell it already rewrote, changes nothing more |
| Surfaces.Overlay | n64_video.c:200-229 | a blitter leaves every cell outside its box unchanged |
| Surfaces.OverlayCell | n64_video.c:215-227 | a box cell takes the rule's value for its position in the box and its old value; any other cell keeps its value |
| Surfaces.OverlayTwice | n64_video.c:215-227 | overlaying the same box twice with the same rule is overlaying it once |
| Surfaces.CopyInto | n64_video.c:459-462 | memcpy: the bytes from `off` on, as many as src holds, become src; every other byte stays |
| Surfaces.CopyRows | n64_video.c:204-212 | the memcpy loop of a SOLID tile writes the whole tile into its box, row by row with the surface stride |
| Surfaces.FillPrefix | n64_video.c:449-452 | memset: the first n bytes become the value, the rest stay |
| Surfaces.KeyedRow | n64_video.c:217-225 | one keyed row: each non-transparent tile pixel is copied, every other byte stays |
| Surfaces.RecolorRow | n64_video.c:238-246 | one font-tile row: non-transparent pixels are copied, with colour 0xF replaced by the font colour |
| Surfaces.WhiteRow | n64_video.c:268-276 | one row of the white effect: 0xF under each non-transparent pixel |
| Surfaces.IntensifyRow | n64_video.c:290-298 | one mode-3 row: bit 3 set under each non-transparent pixel |
| Surfaces.HighlightRow | n64_video.c:309-318 | one highlight row: bit 3 set on cell j of row i exactly when (type 0 and i+j >= 7), type 1, or (type 2 and i >= j) |
| Video.DrawTileCell | n64_video.c:200-229 | video_draw_tile, cell by cell: a SOLID tile writes every footprint cell; any other tile writes only cells whose tile pixel is not TRANSPARENT_COLOR; cells outside the footprint are unchanged |
| Video.DrawTileTwice | n64_video.c:200-229 | drawing a tile twice at one place is drawing it once |
| Video.FontTileCell | n64_video.c:231-249 | video_draw_font_tile writes the font colour where the tile pixel is 0xF and the tile pixel elsewhere; it skips transparent pixels and leaves every other cell unchanged |
| Video.SolidWhiteCell | n64_video.c:251-280 | video_draw_tile_solid_white copies a SOLID tile whole; any other tile writes 0xF at each non-transparent pixel and nothing else |
| Video.Mode3Cell | n64_video.c:282-302 | video_draw_tile_mode3 sets bit 3 of the cells under the non-transparent pixels of a TRANSPARENT tile only; other tiles change nothing |
| Video.Mode3Twice | n64_video.c:282-302 | the mode-3 effect is idempotent |
| Video.HighlightCell | n64_video.c:304-321 | video_draw_highlight_effect sets bit 3 of footprint cell (i, j) exactly when (type 0 and i+j >= 7), type 1, or (type 2 and i >= j); no other cell changes |
| Video.HighlightOtherKind | n64_video.c:311-313 | a highlight type other than 0, 1 and 2 changes nothing |
| Video.HighlightTwice | n64_video.c:304-321 | the highlight is idempotent |
| Video.FlippedCell | n64_video.c:378-395 | video_draw_tile_flipped puts tile row i on surface row y+TILE_HEIGHT-1-i, same columns, skipping transparent pixels; nothing else changes |
| Video.ClipIsIntersection | n64_video.c:325-361 | on the early return the tile and the clip rectangle share no cell; otherwise the clipped box is exactly their intersection, and its tile origin is the box's offset from (x, y) |
| Video.ClippedCell | n64_video.c:323-376 | video_draw_tile_with_clip_rect writes only cells in both the footprint and the clip rectangle, each from tile pixel (col-x, row-y) unless that pixel is transparent |
| Video.ClippedOutside | n64_video.c:330-336 | a tile wholly left of, above, right of or below the clip rectangle changes nothing |
| Video.ClippedToFootprint | n64_video.c:323-376 | clipping to the tile's own footprint draws what video_draw_tile draws for a non-SOLID tile |
| Video.GlyphByteIndex | n64_video.c:473 | every font byte the glyph loop reads lies inside the 256-character font table |
| Video.TextCell | n64_video.c:464-479 | video_draw_text writes every cell of the glyph box at (x*FONT_WIDTH, y*FONT_HEIGHT): fg where bit 7-(count%8) of font byte character*FONT_HEIGHT+count/8 is set, bg where it is clear, both cast to uint8; no other cell changes |
| Video.GlyphApply | n64_video.c:473-474 | the glyph rule writes fg on set glyph bits and bg on clear ones |
| Video.BandsShape | n64_video.c:150-183 | a frame is 40 bands of 5 rows; band n reads from byte n*w*5 and is drawn at display row 6n through the mode's palette slot; 40 bands read 200 rows and fill 240 display rows |
| Video.ShownRow | n64_video.c:171-181 | the stretch shows only rows of the 200-row surface on display rows 0..239 |
| Video.BandsCoverDisplay | n64_video.c:166-183 | every display row 0..239 is drawn by exactly one band, band d/6 |
| Video.BandsShowRows | n64_video.c:171-180 | the band that draws display row d shows the surface row at byte w*ShownRow(d): each band's first row twice, then its other rows once |
| Video.AllRowsShown | n64_video.c:166-183 | each of the 200 surface rows appears on some display row |
| Video.BandsWithinSurface | n64_video.c:150-155 | when w*5 <= 2048, every band fits the texture memory and reads only bytes of a surface of at least 200 rows |
| Video.BuildBands | n64_video.c:150-183 | the band loop produces exactly Bands(w, slot) |
| Video.PaletteSlot | n64_video.c:142-143 | slot 0 (game palette) exactly in game mode, slot 1 (text palette) exactly in text mode |
| Video.FadeInSteps | n64_video.c:429-442 | fade_in_from_black sets 16 entries in order: index i gets colour i for i < 8 and colour i+8 from 8 on |
| Video.Surface.constructor | n64_video.c:43-56 | init_surface: a width x height byte buffer with pitch equal to the width, and a fresh palette |
| Video.Surface.FillWithBlack | n64_video.c:449-452 | all w*h cells become 0 |
| Video.Video.constructor | n64_video.c:58-105 | video_init: surfaces of the screen size and twice the screen size, the text surface black, each surface's palette holding its colours, copied to its buffer and queued for its slot, game mode on, list 0 current |
| Video.Video.SetTextMode | n64_video.c:124-130 | text mode afterwards, whatever the mode before |
| Video.Video.SetGameMode | n64_video.c:132-138 | game mode afterwards, whatever the mode before |
| Video.Video.Update | n64_video.c:140-198 | the current list gets copy mode and the bands of the shown surface through the mode's slot, is submitted, and the other list becomes current, emptied |
| Video.Video.UpdatePalette | n64_video.c:397-407 | one game palette entry gets the packed colour and the others keep theirs; the version goes up by one while the size and slot are unchanged; the palette is copied to its buffer; a reload of the game slot is queued |
| Video.Video.DrawFullscreenImage | n64_video.c:459-462 | the game surface becomes the first SCREEN_WIDTH*SCREEN_HEIGHT image bytes |
| Video.Video.DrawTile | n64_video.c:200-229 | the game surface becomes DrawnTile of its old contents |
| Video.Video.DrawFontTile | n64_video.c:231-249 | the game surface becomes DrawnFontTile of its old contents |
| Video.Video.DrawTileSolidWhite | n64_video.c:251-280 | the game surface becomes DrawnSolidWhite of its old contents |
| Video.Video.DrawTileMode3 | n64_video.c:282-302 | the game surface becomes DrawnMode3 of its old contents |
| Video.Video.DrawHighlightEffect | n64_video.c:304-321 | the game surface becomes DrawnHighlight of its old contents |
| Video.Video.DrawTileFlipped | n64_video.c:378-395 | the game surface becomes DrawnFlipped of its old contents |
| Video.Video.DrawTileWithClipRect | n64_video.c:323-376 | the game surface becomes DrawnClipped of its old contents |
| Video.Video.DrawText | n64_video.c:464-479 | the text surface becomes DrawnText of its old contents |
| Video.Video.FillScreenWithBlack | n64_video.c:454-457 | every game surface cell becomes 0 |
| Video.FlippedBlit | n64_video.c:380-394 | the flipped loops, with the destination stepping up one row per tile row, leave the flipped keyed overlay |
| Video.ClippedBlit | n64_video.c:362-375 | the clipped loops leave the keyed overlay of the box, read from tile column tx and row ty on |
| Video.GlyphBlit | n64_video.c:466-478 | the glyph loops, with the bit counter running across rows, leave the glyph overlay |
| Video.GlyphRow | n64_video.c:471-476 | one glyph row: fg or bg per glyph bit, and the bit counter advanced by FONT_WIDTH |
| MemReader.RamReader.constructor | n64_sfx.c:168-183 | my_new_mem_reader: the buffer and length are as given, and pos and iobase are 0 |
| MemReader.Tell | n64_sfx.c:159-166 | pos - iobase, between 0 and len - iobase; 0 for a null reader |
| MemReader.Read | n64_sfx.c:73-110 | a null reader, size 0 or a cursor at the end copy nothing and give 0; otherwise exactly min(size, len-pos) bytes from buffer[pos..] reach the front of ptr, pos advances by that count, the result is 1 exactly when all size bytes were there, and len and iobase are unchanged |
| MemReader.Get | n64_sfx.c:112-124 | buffer[pos] and pos+1, or EOF with pos unchanged at the end; EOF exactly when Eof held |
| MemReader.Seek | n64_sfx.c:126-157 | -1 with pos unchanged for a null reader or an unknown whence; below iobase: pos = iobase and -1; past len: pos = len and 0; else pos = target and 0; always iobase <= pos <= len |
| MemReader.SeekSetTell | n64_sfx.c:126-166 | seeking with SET to the value Tell gives returns 0 and leaves the cursor, iobase and length where they were |
| MemReader.Swap16 | n64_sfx.c:12 | the two bytes exchanged |
| MemReader.Swap32 | n64_sfx.c:13-14 | the four bytes in reverse order |
| MemReader.Swap16Involution | n64_sfx.c:12 | swapping twice gives the input |
| MemReader.Swap32Involution | n64_sfx.c:13-14 | swapping twice gives the input |
| MemReader.PlaySfx | n64_sfx.c:326-335 | sound 0 plays nothing; sound n plays slot n-1 when that slot holds a sample, else nothing |
| Music.CDiv | n64_music.c:55 | C division of int: the quotient has the sign of the dividend (zero counts as both) |
| Music.CDivTruncates | n64_music.c:55 | C division truncates toward zero: for a >= 0 the remainder a - b*q is in [0, b); for a < 0 it is in (-b, 0] |
| Music.GetDelay | n64_music.c:46-51 | 17 times the little-endian 16-bit value in bytes 2 and 3 of the instruction (9600/560 truncates to 17), at most 17*65535 |
| Music.NextPosition | n64_music.c:64-68 | the position moves on by one and wraps to 0 after the last instruction |
| Music.Begin | n64_music.c:60-69 | with no delay pending the instruction's register and value are written, its delay becomes pending and the position moves on to NextPosition, wrapping after the last instruction; otherwise nothing happens |
| Music.RenderSamples | n64_music.c:53-84 | one call renders exactly len/2 samples in total, none for a request of zero or less |
| Music.RenderContiguous | n64_music.c:73-80 | each batch of samples starts where the previous one ended, 2 bytes per sample, from the start of the stream |
| Music.RenderIssued | n64_music.c:60-64 | every register write is the register and value bytes of one of the track's instructions |
| Music.RenderSplit | n64_music.c:70-83 | carrying the pending delay between calls makes the split invisible: i1 samples and then i2 more issue the same writes, in order, and end in the same state as i1+i2 at once |
| Music.Player.constructor | n64_music.c:17-23 | no track, index -1, position and delay 0 |
| Music.Player.GenerateMusic | n64_music.c:53-84 | the calls made, the new position and the pending delay are those of Render for len/2 samples (C division); the track and the rest of the state are unchanged |
| Music.Player.GeneratePass | n64_music.c:58-83 | one pass of the loop agrees with Render: it finishes with the rest of the request inside the pending delay, or leaves no delay and what is left to render |
| Music.Player.MusicRead | n64_music.c:86-92 | a buffer of wlen samples is filled with exactly wlen samples written contiguously from its start; the calls, position and pending delay are those of rendering wlen samples from the old scheduler state; the track, its index, the playing flag and the loaded file are unchanged |
| Music.Player.PlayMusic | n64_music.c:133-143 | the music channel plays; nothing else changes |
| Music.Player.StopMusic | n64_music.c:127-131 | the channel stops and the index becomes -1; nothing else changes |
| Music.Player.LoadMusic | n64_music.c:94-119 | with audio disabled nothing changes; otherwise the position and delay are 0, the index is the new one and the file of that index is loaded and played; the replay branch is never taken |
| Input.HeldFlags | n64_input.c:76-88 | each flag is 0 or 1; up and input-up are set exactly when d-pad up is held or y > 20; down, left and right likewise with y < -20, x < -20 and x > 20; jump and bomb follow A and B |
| Input.StickDeadZone | n64_input.c:84-88 | with the stick within +-20, the thresholds included, the flags are the button copies |
| Input.StickOnlySets | n64_input.c:84-88 | the stick only ever sets flags |
| Input.InputFlags.constructor | n64_input.c:16-25 | all seven flags start at 0 |
| Input.InputFlags.Reset | n64_input.c:104-113 | all seven flags become 0 |
| Input.InputFlags.CopyButtons | n64_input.c:76-82 | the flags become the d-pad, A and B bits, with up in both up flags |
| Input.InputFlags.ApplyStick | n64_input.c:84-88 | the flags become Stick of the old flags |
| Input.InputFlags.ReadInput | n64_input.c:69-101 | a controller error gives CONTINUE and L with R gives QUIT, both with the flags untouched; otherwise the flags become Held(pressed), the help dialog opens exactly when Start was just pressed, and QUIT comes exactly when it answered 2 |
| Input.PollKey | n64_input.c:115-138 | UNKNOWN on an error; RETURN exactly for Start or A; ESCAPE exactly for B without those; PAGEUP exactly for R without those; then the d-pad in the order up, down, left, right; UNKNOWN exactly when nothing is pressed and the stick is within +-20 |
| Input.PollStick | n64_input.c:130-135 | with nothing pressed, the stick decides: x beyond +-20 first, then y |
| Input.PollReturn | n64_input.c:115-191 | a polled key is the return key exactly when Start or A was pressed on a controller without error |
| Input.InputCommandKey | n64_input.c:150-165 | UNKNOWN exactly for CMD_KEY_OTHER and unlisted commands |
| Input.CommandKeyString | n64_input.c:167-181 | the empty string exactly for CMD_KEY_OTHER and unlisted commands |
| Input.CommandTables | n64_input.c:150-181 | a command has a name exactly when it has a key; the six commands with a key have different keys and different names |

## Left out

- libdragon display and RDP plumbing is left out because it is hardware access: the rest of `video_init` and `video_shutdown`, `memalign`, the `display_lock` busy-wait, `rdp_attach_display`, `rdp_set_clipping`, `display_show`, cache writeback and the exact rasteriser command words.
- Video.Video.Update requires `w*5 <= 2048`, the assertion at n64_video.c:154. The source asserts it for both surfaces, and it fails for a text surface twice as wide as a 320-pixel screen; the model does not prove it.
- Video.BandsShape is about bands over 200 source rows. Whether the shown surface has at least 200 rows depends on `SCREEN_HEIGHT`, which is not part of this model, so `BandsWithinSurface` takes it as a premise.
- The blitters do no bounds checks, so `TilePlaced`, `ClipPlaced` and the text-cell bounds are preconditions.
- The `uint16` coordinates of the blitters are naturals here. The model assumes no coordinate sum wraps at 2^16.
- Fades: `fade_to_black`, `fade_to_white` and the timing of `fade_in_from_black` depend on `cosmo_wait` and `set_palette_color`, which are not part of this model. Only the (index, colour) sequence of `fade_in_from_black` is modelled.
- `video_set_fullscreen` is left out because it does nothing. `video_set_scale_factor` is left out because it only sets `video_scale_factor`, a global that nothing in n64_video.c reads.
- `set_palette_on_surface` is not part of this model. Its colours are constructor parameters.
- `convert_sfx_to_wave` and `writeSample` are left out: floating-point sample maths and WAV header construction. The reader length they hand over counts the header twice, so no reader precondition relies on it.
- `get_num_sfx`, `get_num_samples`, `load_sfx_file`, `load_sfx`, `sfx_close` and the mikmod calls are left out: file access and a foreign audio library.
- MemReader.RamReader.constructor does not model `calloc` failing. A failed allocation returns NULL, which the model's null-reader cases of Read, Seek, Tell and AtEof still cover.
- MemReader.Read and Get require `len <= |buffer|`. The source trusts the length it is given.
- The OPL emulator (`adlib_write`, `adlib_getsample`, `adlib_init`) is not part of this model. Calls into it are recorded as `OplCall` values.
- The mixer, sample buffer and cache glue of `music_read` and `play_music` are left out, as is the waveform record `play_music` fills. Playing is a boolean.
- Music.Player.GenerateMusic requires a track of whole 4-byte instructions, at least one, as the source's indexing needs.
- Music.Player.GenerateMusic also requires some instruction to have a non-zero delay. Otherwise the source loop never ends, which a terminating model cannot express.
- Music.Player.LoadMusic: `load_file_in_new_buf` is not part of this model. The track's bytes are a parameter, and the `music_data != NULL` assertion is not modelled.
- `music_init` and `music_close` are left out: an emulator init and a call of stop_music.
- The demo branch of `read_input` is left out, because it depends on demo and dialog state outside this model.
- `wait_for_time_or_key`, `cosmo_wait` and `flush_input` are left out: timing and controller scans.
- `input_init`, `input_shutdown`, the no-op `set_input_command_key` and `hint_dialog_get_input` (always EXIT) are left out.
- Input.PollKey ignores `allow_key_repeat`, as the source does. The snapshot stands for `controller_scan` plus `get_keys_down`.
- The `cfg_*_key` variables are constants, because nothing in the port changes them.
- n64_main.c and n64_audio.c are left out: the top-level loop, the save file table and audio init wrappers.
